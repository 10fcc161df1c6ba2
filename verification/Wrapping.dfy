/** Word wrapping keeps every visible grapheme with its style and respects the width. */
module Wrapping {
  import opened Basics
  import opened Strings
  import opened AnsiStyle
  import opened AnsiRoundTrip
  import opened AnsiText
  import opened AnsiTracker
  import opened WrapWords

  // ----- Breaking a word that is wider than a line

  /** The column after a word broken greedily, starting at column `column`. */
  function BreakColumn(word: Line, width: nat, column: nat): nat {
    if word == [] then column else
      var w := WidthOf(word[0]);
      BreakColumn(word[1..], width, if word[0].Glyph? && column + w > width then w else column + w)
  }

  ghost predicate Narrow(line: Line, width: nat) {
    forall i :: 0 <= i < |line| ==> WidthOf(line[i]) <= width
  }

  /** The line that has been started: its cells continue what is finished, and it ends in style `s`. */
  ghost predicate Progress(done: seq<Cell>, lines: seq<Line>, gaps: seq<seq<Cell>>, current: Line, s: Style) {
    && |lines| == |gaps| && AllGapsSpace(gaps)
    && Interleave(lines, gaps) + Cells(current, CLEAR) == done
    && StyleAfter(current, CLEAR) == s
  }

  /** Finishing the current line with codes and starting the next with the active ones. */
  lemma {:induction false} NextLine(done: seq<Cell>, lines: seq<Line>, gaps: seq<seq<Cell>>, current: Line, s: Style)
    requires Progress(done, lines, gaps, current, s) && Good(s)
    ensures Progress(done, lines + [current + LineEndReset(s)], gaps + [[]], ActiveItems(s), s)
    ensures Width(current + LineEndReset(s)) == Width(current) && Width(ActiveItems(s)) == 0
  {
    hide Cells, StyleAfter, Interleave, Good, ActiveItems, Width;
    var reset := LineEndReset(s);
    Concat(current, reset, CLEAR);
    CodesAreInvisible(reset, s);
    assert Cells(current + reset, CLEAR) + [] == Cells(current, CLEAR);
    Push(done, lines, gaps, Cells(current, CLEAR), current + reset, []);
    ActiveRestores(s);
    CodesAreInvisible(ActiveItems(s), CLEAR);
    assert done + [] == done;
  }

  lemma {:induction false} Append(done: seq<Cell>, lines: seq<Line>, gaps: seq<seq<Cell>>, current: Line, s: Style,
      more: Line)
    requires Progress(done, lines, gaps, current, s)
    ensures Progress(done + Cells(more, s), lines, gaps, current + more, StyleAfter(more, s))
    ensures Width(current + more) == Width(current) + Width(more)
  {
    hide Cells, StyleAfter, Interleave, Width;
    Concat(current, more, CLEAR);
    assert Interleave(lines, gaps) + (Cells(current, CLEAR) + Cells(more, s))
        == Interleave(lines, gaps) + Cells(current, CLEAR) + Cells(more, s);
  }

  /** Breaks a word over lines that each restore the style they start in. */
  method BreakLongWord(word: Line, width: nat, tracker: AnsiCodeTracker) returns (lines: seq<Line>)
    requires Good(tracker.State()) && WellFormed(word)
    modifies tracker
    ensures tracker.State() == StyleAfter(word, old(tracker.State()))
    ensures lines != []
    ensures var k := |lines| - 1;
      Progress(Cells(word, old(tracker.State())), lines[..k], NoGaps(k), lines[k], tracker.State())
      && Width(lines[k]) == BreakColumn(word, width, 0)
    ensures Narrow(word, width) ==> forall i :: 0 <= i < |lines| ==> Width(lines[i]) <= width
    ensures Pieces(Cells(word, old(tracker.State())), width, lines[..|lines| - 1])
  {
    hide Cells, StyleAfter, Interleave, Good, ActiveItems, Width, LineEndReset, CodeLength, WidthOf, Pieces;
    ghost var start := tracker.State();
    lines := [];
    var currentLine := ActiveItems(tracker.State());
    var currentWidth := 0;
    StartWord(start);
    NoPieces(Cells(word, start), width);
    for i := 0 to |word|
      invariant Good(tracker.State())
      invariant tracker.State() == StyleAfter(word[..i], start)
      invariant Progress(Cells(word[..i], start), lines, NoGaps(|lines|), currentLine, tracker.State())
      invariant currentWidth == Width(currentLine)
      invariant Pieces(Cells(word, start), width, lines)
      invariant BreakColumn(word, width, 0) == BreakColumn(word[i..], width, currentWidth)
      invariant lines != [] ==> currentLine != []
      invariant Narrow(word, width) ==> currentWidth <= width && forall k :: 0 <= k < |lines| ==>
        Width(lines[k]) <= width
    {
      var item := word[i];
      var s := tracker.State();
      SplitItem(word, i, start);
      assert word[i..][1..] == word[i + 1..] && word[i..][0] == item;
      if item.Code? {
        AppendItem(Cells(word[..i], start), lines, NoGaps(|lines|), currentLine, s, item);
        AfterCode(s, item);
        currentLine := currentLine + [item];
        tracker.Process(item.code);
      } else {
        if currentWidth + item.g.width > width {
          NextLine(Cells(word[..i], start), lines, NoGaps(|lines|), currentLine, s);
          PieceStep(word, i, start, width, lines, currentLine, s);
          assert NoGaps(|lines|) + [[]] == NoGaps(|lines| + 1);
          lines := lines + [currentLine + LineEndReset(s)];
          currentLine := ActiveItems(s);
          currentWidth := 0;
        }
        AppendItem(Cells(word[..i], start), lines, NoGaps(|lines|), currentLine, s, item);
        GlyphWidth(item);
        currentLine := currentLine + [item];
        currentWidth := currentWidth + item.g.width;
      }
    }
    assert word[..|word|] == word;
    lines := lines + [currentLine];
  }

  /** The piece on the current line ends here, because grapheme `i` does not fit behind it. */
  lemma {:induction false} PieceStep(word: Line, i: nat, start: Style, width: nat, lines: seq<Line>, current: Line,
      s: Style)
    requires i < |word| && word[i].Glyph? && Pieces(Cells(word, start), width, lines) && Good(s)
    requires Progress(Cells(word[..i], start), lines, NoGaps(|lines|), current, s)
    requires Width(current) + word[i].g.width > width
    ensures Pieces(Cells(word, start), width, lines + [current + LineEndReset(s)])
  {
    hide StyleAfter, Interleave, Good, ActiveItems, Width, LineEndReset, Pieces, Cells, Columns;
    var all, before := Cells(word, start), Cells(word[..i], start);
    var a, b := |Interleave(lines, NoGaps(|lines|))|, |before|;
    var line := current + LineEndReset(s);
    NextLine(before, lines, NoGaps(|lines|), current, s);
    assert NoGaps(|lines|) + [[]] == NoGaps(|lines| + 1);
    ActiveRestores(s);
    CodesAreInvisible(ActiveItems(s), CLEAR);
    CellAt(word, i, start);
    assert all[a..b] == all[..b][a..] == Cells(current, CLEAR);
    WidthColumns(current, CLEAR);
    assert Interleave(lines + [line], NoGaps(|lines| + 1)) + [] == before;
    ResetLineCloses(current, s);
    PiecesSnoc(all, width, lines, line);
  }

  /** The cells of a word begin with those of its first items, and the next one is that of the next. */
  lemma {:induction false} CellAt(word: Line, i: nat, s: Style)
    requires i < |word| && word[i].Glyph?
    ensures var n := |Cells(word[..i], s)|;
      n < |Cells(word, s)| && Cells(word, s)[..n] == Cells(word[..i], s) && Cells(word, s)[n].g == word[i].g
  {
    hide Cells, StyleAfter, Width, Process;
    assert word == word[..i + 1] + word[i + 1..];
    Concat(word[..i + 1], word[i + 1..], s);
    SplitItem(word, i, s);
  }

  lemma {:induction false} StartWord(s: Style)
    requires Good(s)
    ensures Progress(Cells([], s), [], NoGaps(0), ActiveItems(s), s) && Width(ActiveItems(s)) == 0
      && StyleAfter([], s) == s
  {
    hide Good, ActiveItems;
    ActiveRestores(s);
    CodesAreInvisible(ActiveItems(s), CLEAR);
  }

  lemma {:induction false} NoPieces(cells: seq<Cell>, width: nat)
    ensures Pieces(cells, width, [])
  {
  }

  lemma {:induction false} SplitItem(word: Line, i: nat, s: Style)
    requires i < |word|
    ensures StyleAfter(word[..i + 1], s) == After(word[i], StyleAfter(word[..i], s))
    ensures Cells(word[..i + 1], s) == Cells(word[..i], s) + Shown(word[i], StyleAfter(word[..i], s))
  {
    hide Process;
    assert word[..i + 1] == word[..i] + [word[i]];
    Concat(word[..i], [word[i]], s);
    Single(word[i], StyleAfter(word[..i], s));
  }

  lemma {:induction false} AppendItem(done: seq<Cell>, lines: seq<Line>, gaps: seq<seq<Cell>>, current: Line,
      s: Style, item: Item)
    requires Progress(done, lines, gaps, current, s)
    ensures Progress(done + Shown(item, s), lines, gaps, current + [item], After(item, s))
    ensures Width(current + [item]) == Width(current) + WidthOf(item)
  {
    hide Interleave, Process, Progress;
    Append(done, lines, gaps, current, s, [item]);
    Single(item, s);
  }

  lemma {:induction false} AfterCode(s: Style, item: Item)
    requires item.Code? && Good(s) && CodeLength(item.code) == |item.code|
    ensures Good(Process(s, item.code)) && After(item, s) == Process(s, item.code) && WidthOf(item) == 0
  {
    hide Good, Process;
    GoodProcess(s, item.code);
  }

  lemma {:induction false} GlyphWidth(item: Item)
    requires item.Glyph?
    ensures WidthOf(item) == item.g.width
  {
  }

  // ----- Where the loop stands after some tokens

  /** The column reached after `k` tokens. */
  function Column(ts: seq<Line>, width: nat, k: nat): nat
    requires k <= |ts|
  {
    if k == 0 then 0 else
      var c, t := Column(ts, width, k - 1), ts[k - 1];
      if Long(t, width) then BreakColumn(t, width, 0)
      else if c + Width(t) > width && c > 0 then (if IsBlank(t) then 0 else Width(t))
      else c + Width(t)
  }

  /** A blank run wider than a line at the start of a line. */
  predicate WideBlank(ts: seq<Line>, width: nat, k: nat)
    requires k < |ts|
  {
    IsBlank(ts[k]) && Width(ts[k]) > width && Column(ts, width, k) == 0
  }

  /** Such a run is not trimmed when an overlong word follows while underline or a link is open,
      because the codes that close them are appended first. */
  predicate Spills(ts: seq<Line>, width: nat, k: nat)
    requires k < |ts|
  {
    && WideBlank(ts, width, k) && k + 1 < |ts| && Long(ts[k + 1], width)
    && LineEndReset(StyleAfter(Flatten(ts[..k + 1]), CLEAR)) != []
  }

  ghost predicate NoSpill(ts: seq<Line>, width: nat, n: nat)
    requires n <= |ts|
  {
    forall k :: 0 <= k < n - 1 ==> !Spills(ts, width, k)
  }

  ghost predicate TrimmedFit(lines: seq<Line>, width: nat) {
    forall i :: 0 <= i < |lines| ==> Width(TrimEnd(lines[i])) <= width
  }

  /** The current line is no wider than allowed unless it is about to be trimmed to nothing, and the
      finished lines fit exactly when nothing spilled. */
  ghost predicate WidthKept(ts: seq<Line>, width: nat, k: nat, lines: seq<Line>, current: Line)
    requires k <= |ts|
  {
    && Width(TrimEnd(current)) <= width
    && (Width(current) > width <==> k > 0 && WideBlank(ts, width, k - 1))
    && (TrimmedFit(lines, width) <==> NoSpill(ts, width, k))
  }

  ghost predicate AllNarrow(ts: seq<Line>, width: nat) {
    forall i :: 0 <= i < |ts| ==> Narrow(ts[i], width)
  }

  ghost predicate MeaningKept(ts: seq<Line>, k: nat, lines: seq<Line>, gaps: seq<seq<Cell>>, current: Line, s: Style)
    requires k <= |ts|
  {
    && Good(s) && s == StyleAfter(Flatten(ts[..k]), CLEAR)
    && Progress(Cells(Flatten(ts[..k]), CLEAR), lines, gaps, current, s)
  }

  // ----- Trimming

  lemma {:induction false} TrimBlank(a: Line, t: Line)
    requires IsBlank(t)
    ensures TrimEnd(a + t) == TrimEnd(a)
    decreases |t|
  {
    if t == [] {
      assert a + t == a;
    } else {
      var k := |t| - 1;
      assert (a + t)[|a + t| - 1] == t[k] && (a + t)[..|a + t| - 1] == a + t[..k];
      TrimBlank(a, t[..k]);
    }
  }

  lemma {:induction false} TrimKeepsCodes(a: Line, codes: Line)
    requires OnlyCodes(codes) && codes != []
    ensures TrimEnd(a + codes) == a + codes
  {
    assert (a + codes)[|a + codes| - 1] == codes[|codes| - 1];
  }

  lemma {:induction false} TrimNarrows(line: Line)
    ensures Width(TrimEnd(line)) <= Width(line)
  {
    var off := TrimDrops(line, CLEAR);
  }

  // ----- Token by token

  lemma {:induction false} JoinProgress(done: seq<Cell>, lines: seq<Line>, gaps: seq<seq<Cell>>, more: seq<Cell>,
      lines': seq<Line>, gaps': seq<seq<Cell>>, current: Line, s: Style)
    requires Rebuilds(done, lines, gaps) && Progress(more, lines', gaps', current, s)
    ensures Progress(done + more, lines + lines', gaps + gaps', current, s)
  {
    hide Cells, StyleAfter;
    InterleaveConcat(lines, gaps, lines', gaps');
    Reassociate(Interleave(lines, gaps), Interleave(lines', gaps'), Cells(current, CLEAR));
  }

  /** Adding a token to the current line. */
  lemma {:induction false} AddMeaning(ts: seq<Line>, k: nat, lines: seq<Line>, gaps: seq<seq<Cell>>, current: Line,
      s: Style)
    requires k < |ts| && MeaningKept(ts, k, lines, gaps, current, s) && WellFormed(ts[k])
    ensures MeaningKept(ts, k + 1, lines, gaps, current + ts[k], StyleAfter(ts[k], s))
    ensures Width(current + ts[k]) == Width(current) + Width(ts[k])
  {
    hide Cells, StyleAfter, Width, Interleave, Good, CodeLength, Flatten;
    FlattenStep(ts, k);
    StyleGood(ts[k], s);
    Append(Cells(Flatten(ts[..k]), CLEAR), lines, gaps, current, s, ts[k]);
  }

  /** The current line trimmed, closed and followed by a line that starts with the active codes. */
  lemma {:induction false} WrapMeaning(ts: seq<Line>, k: nat, lines: seq<Line>, gaps: seq<seq<Cell>>, current: Line,
      s: Style)
      returns (off: seq<Cell>)
    requires k <= |ts| && MeaningKept(ts, k, lines, gaps, current, s)
    ensures AllSpace(off)
    ensures MeaningKept(ts, k, lines + [TrimEnd(current) + LineEndReset(s)], gaps + [off], ActiveItems(s), s)
    ensures Width(TrimEnd(current) + LineEndReset(s)) == Width(TrimEnd(current)) && Width(ActiveItems(s)) == 0
  {
    hide Cells, StyleAfter, Width, Interleave, Good, ActiveItems, Flatten, TrimEnd;
    var done := Cells(Flatten(ts[..k]), CLEAR);
    var reset := LineEndReset(s);
    off := TrimDrops(current, CLEAR);
    var end := StyleAfter(TrimEnd(current), CLEAR);
    Concat(TrimEnd(current), reset, CLEAR);
    CodesAreInvisible(reset, end);
    assert Cells(TrimEnd(current), CLEAR) + [] == Cells(TrimEnd(current), CLEAR);
    Push(done, lines, gaps, Cells(current, CLEAR), TrimEnd(current) + reset, off);
    ActiveRestores(s);
    CodesAreInvisible(ActiveItems(s), CLEAR);
    assert done + [] == done;
  }

  lemma {:induction false} BlankShowsSpace(t: Line, s: Style)
    requires IsBlank(t)
    ensures AllSpace(Cells(t, s)) && StyleAfter(t, s) == s
    decreases |t|
  {
    hide Process;
    if t != [] {
      BlankShowsSpace(t[1..], s);
    }
  }

  /** A blank token at a break joins the gap. */
  lemma {:induction false} DropMeaning(ts: seq<Line>, k: nat, lines: seq<Line>, gaps: seq<seq<Cell>>, current: Line,
      s: Style)
    requires k < |ts| && MeaningKept(ts, k, lines, gaps, current, s) && IsBlank(ts[k])
    requires lines != [] && OnlyCodes(current)
    ensures MeaningKept(ts, k + 1, lines, gaps[|gaps| - 1 := gaps[|gaps| - 1] + Cells(ts[k], s)], current, s)
  {
    hide Cells, StyleAfter, Width, Good, Flatten, Interleave;
    FlattenStep(ts, k);
    BlankShowsSpace(ts[k], s);
    CodesAreInvisible(current, CLEAR);
    var done := Cells(Flatten(ts[..k]), CLEAR);
    assert Interleave(lines, gaps) + [] == Interleave(lines, gaps);
    WidenGap(done, lines, gaps, Cells(ts[k], s));
    var wide := gaps[|gaps| - 1 := gaps[|gaps| - 1] + Cells(ts[k], s)];
    assert Interleave(lines, wide) + [] == Interleave(lines, wide);
  }

  // ----- Widths, token by token

  lemma {:induction false} NoSpillStep(ts: seq<Line>, width: nat, k: nat)
    requires k < |ts|
    ensures NoSpill(ts, width, k + 1) <==> NoSpill(ts, width, k) && (k > 0 ==> !Spills(ts, width, k - 1))
  {
  }

  lemma {:induction false} AddWidth(ts: seq<Line>, width: nat, k: nat, lines: seq<Line>, current: Line)
    requires k < |ts| && WidthKept(ts, width, k, lines, current) && Width(current) == Column(ts, width, k)
    requires !Long(ts[k], width) && !(Width(current) + Width(ts[k]) > width && Width(current) > 0)
    requires Width(current + ts[k]) == Width(current) + Width(ts[k])
    ensures WidthKept(ts, width, k + 1, lines, current + ts[k])
  {
    hide Width, TrimEnd, StyleAfter, Column;
    NoSpillStep(ts, width, k);
    TrimNarrows(current + ts[k]);
    TrimNarrows(current);
    if IsBlank(ts[k]) { TrimBlank(current, ts[k]); }
  }

  lemma {:induction false} FitSnoc(lines: seq<Line>, line: Line, width: nat)
    ensures TrimmedFit(lines + [line], width) <==> TrimmedFit(lines, width) && Width(TrimEnd(line)) <= width
  {
    hide Width, TrimEnd;
    assert (lines + [line])[|lines|] == line;
    assert forall i :: 0 <= i < |lines| ==> (lines + [line])[i] == lines[i];
  }

  lemma {:induction false} WrapWidth(ts: seq<Line>, width: nat, k: nat, lines: seq<Line>, current: Line, line: Line,
      next: Line)
    requires k < |ts| && WidthKept(ts, width, k, lines, current) && Width(current) == Column(ts, width, k) > 0
    requires !Long(ts[k], width) && Width(line) == Width(TrimEnd(current))
    requires Width(next) == if IsBlank(ts[k]) then 0 else Width(ts[k])
    ensures WidthKept(ts, width, k + 1, lines + [line], next)
  {
    hide Width, TrimEnd, StyleAfter, Column;
    NoSpillStep(ts, width, k);
    TrimNarrows(line);
    TrimNarrows(next);
    FitSnoc(lines, line, width);
  }

  /** Closing the current line before an overlong word: it spills exactly when it is a wide blank run
      and something has to be closed. */
  lemma {:induction false} CloseWidth(ts: seq<Line>, width: nat, k: nat, lines: seq<Line>, current: Line, s: Style)
    requires k < |ts| && WidthKept(ts, width, k, lines, current) && Long(ts[k], width)
    requires s == StyleAfter(Flatten(ts[..k]), CLEAR) && Width(current + LineEndReset(s)) == Width(current)
    ensures TrimmedFit(lines + [current + LineEndReset(s)], width) <==> NoSpill(ts, width, k + 1)
  {
    hide Width, TrimEnd, StyleAfter, Column, Flatten;
    var reset := LineEndReset(s);
    NoSpillStep(ts, width, k);
    FitSnoc(lines, current + reset, width);
    TrimNarrows(current + reset);
    if reset == [] {
      assert current + reset == current;
    } else {
      TrimKeepsCodes(current, reset);
    }
  }

  lemma {:induction false} EmptyClose(ts: seq<Line>, width: nat, k: nat, lines: seq<Line>)
    requires k < |ts| && WidthKept(ts, width, k, lines, [])
    ensures TrimmedFit(lines, width) <==> NoSpill(ts, width, k + 1)
  {
    hide TrimEnd, StyleAfter, Column, Flatten;
    NoSpillStep(ts, width, k);
  }

  lemma {:induction false} BreakWidth(ts: seq<Line>, width: nat, k: nat, lines: seq<Line>, broken: seq<Line>,
      last: Line)
    requires k < |ts| && Long(ts[k], width)
    requires TrimmedFit(lines, width) <==> NoSpill(ts, width, k + 1)
    requires (forall i :: 0 <= i < |broken| ==> Width(broken[i]) <= width) && Width(last) <= width
    ensures WidthKept(ts, width, k + 1, lines + broken, last)
    decreases |broken|
  {
    hide Width, TrimEnd, StyleAfter, Column;
    TrimNarrows(last);
    forall i | 0 <= i < |broken| ensures Width(TrimEnd(broken[i])) <= width { TrimNarrows(broken[i]); }
    var all := lines + broken;
    assert forall i :: 0 <= i < |lines| ==> all[i] == lines[i];
    assert forall i :: |lines| <= i < |all| ==> all[i] == broken[i - |lines|];
  }

  // ----- Wrapping one line

  lemma {:induction false} BreakMeaning(ts: seq<Line>, k: nat, lines: seq<Line>, gaps: seq<seq<Cell>>, s: Style,
      broken: seq<Line>, last: Line)
    requires k < |ts| && Good(s) && s == StyleAfter(Flatten(ts[..k]), CLEAR) && WellFormed(ts[k])
    requires Rebuilds(Cells(Flatten(ts[..k]), CLEAR), lines, gaps)
    requires Progress(Cells(ts[k], s), broken, NoGaps(|broken|), last, StyleAfter(ts[k], s))
    ensures MeaningKept(ts, k + 1, lines + broken, gaps + NoGaps(|broken|), last, StyleAfter(ts[k], s))
  {
    hide Cells, StyleAfter, Good, Flatten, Progress, Rebuilds, CodeLength;
    FlattenStep(ts, k);
    StyleGood(ts[k], s);
    JoinProgress(Cells(Flatten(ts[..k]), CLEAR), lines, gaps, Cells(ts[k], s), broken, NoGaps(|broken|), last,
        StyleAfter(ts[k], s));
  }

  /** The current line is finished before an overlong word. */
  lemma {:induction false} CloseMeaning(ts: seq<Line>, k: nat, lines: seq<Line>, gaps: seq<seq<Cell>>, current: Line,
      s: Style)
    requires k <= |ts| && MeaningKept(ts, k, lines, gaps, current, s)
    ensures current == [] ==> Rebuilds(Cells(Flatten(ts[..k]), CLEAR), lines, gaps)
    ensures Rebuilds(Cells(Flatten(ts[..k]), CLEAR), lines + [current + LineEndReset(s)], gaps + [[]])
    ensures Width(current + LineEndReset(s)) == Width(current)
  {
    hide StyleAfter, Good, Flatten, Interleave, ActiveItems;
    var done := Cells(Flatten(ts[..k]), CLEAR);
    NextLine(done, lines, gaps, current, s);
    CloseRebuilds(done, lines + [current + LineEndReset(s)], gaps + [[]], ActiveItems(s), s);
    if current == [] {
      assert Interleave(lines, gaps) + [] == Interleave(lines, gaps);
    }
  }

  lemma {:induction false} CloseRebuilds(done: seq<Cell>, lines: seq<Line>, gaps: seq<seq<Cell>>, current: Line,
      s: Style)
    requires Progress(done, lines, gaps, current, s) && Good(s) && current == ActiveItems(s)
    ensures Rebuilds(done, lines, gaps)
  {
    hide Interleave, ActiveItems, Cells, Good;
    ActiveRestores(s);
    CodesAreInvisible(current, CLEAR);
    assert Interleave(lines, gaps) + [] == Interleave(lines, gaps);
  }

  method UpdateTracker(text: Line, tracker: AnsiCodeTracker)
    modifies tracker
    ensures tracker.State() == StyleAfter(text, old(tracker.State()))
  {
    hide Process;
    for i := 0 to |text|
      invariant StyleAfter(text, old(tracker.State())) == StyleAfter(text[i..], tracker.State())
    {
      assert text[i..][1..] == text[i + 1..];
      if text[i].Code? {
        tracker.Process(text[i].code);
      }
    }
  }

  lemma {:induction false} TrimLast(done: seq<Cell>, lines: seq<Line>, gaps: seq<seq<Cell>>, line: Line, gap: seq<Cell>)
      returns (wide: seq<Cell>)
    requires Rebuilds(done, lines, gaps) && AllSpace(gap)
    ensures Rebuilds(done + (Cells(line, CLEAR) + gap), lines + [TrimEnd(line)], gaps + [wide])
  {
    hide Cells, TrimEnd, Interleave;
    var off := TrimDrops(line, CLEAR);
    wide := off + gap;
    assert Cells(TrimEnd(line), CLEAR) + (off + gap) == Cells(TrimEnd(line), CLEAR) + off + gap;
    Push(done + (Cells(line, CLEAR) + gap), lines, gaps, Cells(line, CLEAR) + gap, TrimEnd(line), wide);
  }

  /** Trimming every line moves its trailing whitespace into the gap after it. */
  method TrimLines(wrapped: seq<Line>, ghost gaps: seq<seq<Cell>>)
      returns (lines: seq<Line>, ghost wide: seq<seq<Cell>>)
    requires |wrapped| == |gaps| && AllGapsSpace(gaps)
    ensures Rebuilds(Interleave(wrapped, gaps), lines, wide)
    ensures |lines| == |wrapped| && forall i :: 0 <= i < |lines| ==> lines[i] == TrimEnd(wrapped[i])
    ensures SameBreaks(wrapped, gaps, lines, wide)
  {
    hide Cells, TrimEnd, Interleave, Position;
    lines, wide := [], [];
    NothingInterleaved();
    assert wrapped[..0] == [] && gaps[..0] == [];
    for i := 0 to |wrapped|
      invariant Rebuilds(Interleave(wrapped[..i], gaps[..i]), lines, wide)
      invariant |lines| == i && forall k :: 0 <= k < i ==> lines[k] == TrimEnd(wrapped[k])
      invariant SameBreaks(wrapped[..i], gaps[..i], lines, wide)
    {
      ghost var w := TrimLast(Interleave(wrapped[..i], gaps[..i]), lines, wide, wrapped[i], gaps[i]);
      assert wrapped[..i + 1] == wrapped[..i] + [wrapped[i]] && gaps[..i + 1] == gaps[..i] + [gaps[i]];
      InterleaveSnoc(wrapped[..i], gaps[..i], wrapped[i], gaps[i]);
      BreaksSnoc(wrapped[..i], gaps[..i], wrapped[i], gaps[i], lines, wide, TrimEnd(wrapped[i]), w);
      lines := lines + [TrimEnd(wrapped[i])];
      wide := wide + [w];
    }
    assert wrapped[..|wrapped|] == wrapped && gaps[..|gaps|] == gaps;
  }

  /** The lines of a wrapped text fit: it is short enough as it is, or no blank run spills. */
  ghost predicate WrapsWithin(line: Line, width: nat) {
    Width(line) <= width || NoSpill(Tokens(line), width, |Tokens(line)|)
  }

  ghost predicate AllFit(lines: seq<Line>, width: nat) {
    forall i :: 0 <= i < |lines| ==> Width(lines[i]) <= width
  }

  lemma {:induction false} TokenItems(ts: seq<Line>, k: nat, i: nat)
    requires k < |ts| && i < |ts[k]|
    ensures ts[k][i] in Flatten(ts)
    decreases |ts|
  {
    if k > 0 {
      TokenItems(ts[1..], k - 1, i);
    }
  }

  lemma {:induction false} TokensWellFormed(ts: seq<Line>, line: Line, width: nat)
    requires Flatten(ts) == line && WellFormed(line)
    ensures forall k :: 0 <= k < |ts| ==> WellFormed(ts[k])
    ensures Narrow(line, width) ==> AllNarrow(ts, width)
  {
    hide CodeLength, Flatten;
    forall k, i | 0 <= k < |ts| && 0 <= i < |ts[k]|
      ensures ts[k][i] in line
    {
      TokenItems(ts, k, i);
    }
  }

  // ----- Lines that had to end

  /** While nothing is shown on the current line the finished lines reach up to the next token. */
  lemma {:induction false} ReachesToken(ts: seq<Line>, k: nat, lines: seq<Line>, gaps: seq<seq<Cell>>, current: Line,
      s: Style)
    requires k <= |ts| && MeaningKept(ts, k, lines, gaps, current, s) && OnlyCodes(current)
    ensures |Interleave(lines, gaps)| == Start(ts, k)
  {
    hide Cells, StyleAfter, Width, Interleave, Good, Flatten;
    CodesAreInvisible(current, CLEAR);
    assert Interleave(lines, gaps) + [] == Interleave(lines, gaps);
  }

  lemma {:induction false} CurrentCloses(ts: seq<Line>, k: nat, lines: seq<Line>, gaps: seq<seq<Cell>>, current: Line,
      s: Style)
    requires k <= |ts| && MeaningKept(ts, k, lines, gaps, current, s)
    ensures Closes(TrimEnd(current) + LineEndReset(s))
  {
    hide Cells, StyleAfter, Width, Interleave, Good, Flatten;
    ResetLineCloses(current, s);
  }

  /** Token `k` is a word that does not fit behind the current line, which ends there. */
  lemma {:induction false} EndsBefore(ts: seq<Line>, width: nat, k: nat, lines: seq<Line>, gaps: seq<seq<Cell>>,
      current: Line, s: Style, line: Line, gap: seq<Cell>)
    requires k < |ts| && MeaningKept(ts, k, lines, gaps, current, s) && Filled(ts, width, lines, gaps, |lines|)
    requires !IsBlank(ts[k]) && Width(current) + Width(ts[k]) > width
    requires |Interleave(lines + [line], gaps + [gap])| == Start(ts, k) && Closes(line)
    ensures Filled(ts, width, lines + [line], gaps + [gap], |lines| + 1)
  {
    hide Cells, StyleAfter, Width, Interleave, Good, Flatten, Columns, Start, Filled, IsBlank;
    CurrentColumns(ts, k, Interleave(lines, gaps), Cells(current, CLEAR));
    WidthColumns(current, CLEAR);
    assert BreaksBeforeWord(ts, width, |Interleave(lines, gaps)|, Start(ts, k), k);
    FilledSnoc(ts, width, lines, gaps, line, gap);
  }

  /** Token `k` is whitespace that does not fit behind the current line, which ends with it. */
  lemma {:induction false} EndsBehind(ts: seq<Line>, width: nat, k: nat, lines: seq<Line>, gaps: seq<seq<Cell>>,
      current: Line, s: Style, line: Line, gap: seq<Cell>)
    requires k < |ts| && MeaningKept(ts, k, lines, gaps, current, s) && Filled(ts, width, lines, gaps, |lines|)
    requires IsBlank(ts[k]) && Width(current) + Width(ts[k]) > width && Width(current) > 0
    requires |Interleave(lines + [line], gaps + [gap])| == Start(ts, k + 1) && Closes(line)
    ensures Filled(ts, width, lines + [line], gaps + [gap], |lines| + 1)
  {
    hide Cells, StyleAfter, Width, Interleave, Good, Flatten, Columns, Start, Filled, IsBlank;
    CurrentColumns(ts, k, Interleave(lines, gaps), Cells(current, CLEAR));
    WidthColumns(current, CLEAR);
    assert BreaksAtBlank(ts, width, |Interleave(lines, gaps)|, Start(ts, k + 1), k);
    FilledSnoc(ts, width, lines, gaps, line, gap);
  }

  /** The line before an overlong word ends there, and so do the pieces of the word. */
  lemma {:induction false} CloseFilled(ts: seq<Line>, width: nat, k: nat, lines: seq<Line>, gaps: seq<seq<Cell>>,
      current: Line, s: Style)
    requires k < |ts| && MeaningKept(ts, k, lines, gaps, current, s) && Filled(ts, width, lines, gaps, |lines|)
    requires Long(ts[k], width)
    ensures current == [] ==> |Interleave(lines, gaps)| == Start(ts, k)
    ensures |Interleave(lines + [current + LineEndReset(s)], gaps + [[]])| == Start(ts, k)
    ensures Filled(ts, width, lines + [current + LineEndReset(s)], gaps + [[]], |lines| + 1)
  {
    hide Cells, StyleAfter, Width, Interleave, Good, Flatten, LineEndReset, Filled, IsBlank;
    CloseMeaning(ts, k, lines, gaps, current, s);
    ResetLineCloses(current, s);
    hide MeaningKept;
    EndsBefore(ts, width, k, lines, gaps, current, s, current + LineEndReset(s), []);
  }

  /** Too long a word: finish the current line and break the word over the following ones. */
  method TakeLong(ts: seq<Line>, k: nat, width: nat, tracker: AnsiCodeTracker, wrapped: seq<Line>, currentLine: Line,
      ghost gaps: seq<seq<Cell>>)
      returns (wrapped': seq<Line>, currentLine': Line, ghost gaps': seq<seq<Cell>>)
    requires k < |ts| && Long(ts[k], width) && WellFormed(ts[k])
    requires MeaningKept(ts, k, wrapped, gaps, currentLine, tracker.State())
    requires Width(currentLine) == Column(ts, width, k) && Filled(ts, width, wrapped, gaps, |wrapped|)
    modifies tracker
    ensures MeaningKept(ts, k + 1, wrapped', gaps', currentLine', tracker.State())
    ensures Filled(ts, width, wrapped', gaps', |wrapped'|)
    ensures Width(currentLine') == Column(ts, width, k + 1)
    ensures AllNarrow(ts, width) && WidthKept(ts, width, k, wrapped, currentLine) ==>
      WidthKept(ts, width, k + 1, wrapped', currentLine')
  {
    hide Cells, Width, Interleave, TrimEnd, NoSpill, CodeLength, Flatten, Good, Progress, BreakColumn, LineEndReset,
        StyleAfter, WidthKept, Filled, Pieces, Start, NoGaps;
    var s := tracker.State();
    wrapped', gaps' := wrapped, gaps;
    CloseMeaning(ts, k, wrapped, gaps, currentLine, s);
    CloseFilled(ts, width, k, wrapped, gaps, currentLine, s);
    if currentLine != [] {
      wrapped', gaps' := wrapped + [currentLine + LineEndReset(s)], gaps + [[]];
    }
    ghost var before := wrapped';
    var broken := BreakLongWord(ts[k], width, tracker);
    var n := |broken| - 1;
    currentLine' := broken[n];
    BreakMeaning(ts, k, before, gaps', s, broken[..n], broken[n]);
    FilledPieces(ts, width, k, before, gaps', broken[..n]);
    wrapped', gaps' := wrapped' + broken[..n], gaps' + NoGaps(n);
    if AllNarrow(ts, width) && WidthKept(ts, width, k, wrapped, currentLine) {
      if currentLine != [] {
        CloseWidth(ts, width, k, wrapped, currentLine, s);
      } else {
        EmptyClose(ts, width, k, wrapped);
      }
      BreakWidth(ts, width, k, before, broken[..n], broken[n]);
    }
  }

  /** A token that fits on a line: start a new line for it if it does not fit on this one. */
  method TakeShort(ts: seq<Line>, k: nat, width: nat, tracker: AnsiCodeTracker, wrapped: seq<Line>, currentLine: Line,
      ghost gaps: seq<seq<Cell>>)
      returns (wrapped': seq<Line>, currentLine': Line, ghost gaps': seq<seq<Cell>>)
    requires k < |ts| && !Long(ts[k], width) && WellFormed(ts[k])
    requires MeaningKept(ts, k, wrapped, gaps, currentLine, tracker.State())
    requires Width(currentLine) == Column(ts, width, k) && Filled(ts, width, wrapped, gaps, |wrapped|)
    modifies tracker
    ensures MeaningKept(ts, k + 1, wrapped', gaps', currentLine', tracker.State())
    ensures Filled(ts, width, wrapped', gaps', |wrapped'|)
    ensures Width(currentLine') == Column(ts, width, k + 1)
    ensures WidthKept(ts, width, k, wrapped, currentLine) ==> WidthKept(ts, width, k + 1, wrapped', currentLine')
  {
    hide Cells, Width, Interleave, TrimEnd, NoSpill, CodeLength, Flatten, Good, Progress, LineEndReset, StyleAfter,
        WidthKept, ActiveItems, BreakColumn, Filled, Start, Closes;
    var token := ts[k];
    var s := tracker.State();
    wrapped', currentLine', gaps' := wrapped, currentLine, gaps;
    if Width(currentLine) + Width(token) > width && Width(currentLine) > 0 {
      ghost var off := WrapMeaning(ts, k, wrapped, gaps, currentLine, s);
      wrapped', gaps' := wrapped + [TrimEnd(currentLine) + LineEndReset(s)], gaps + [off];
      currentLine' := ActiveItems(s);
      ActiveAreCodes(s);
      CurrentCloses(ts, k, wrapped, gaps, currentLine, s);
      ReachesToken(ts, k, wrapped', gaps', currentLine', s);
      if IsBlank(token) {
        DropMeaning(ts, k, wrapped', gaps', currentLine', s);
        gaps' := gaps'[|gaps'| - 1 := gaps'[|gaps'| - 1] + Cells(token, s)];
        BlankShowsSpace(token, s);
        ReachesToken(ts, k + 1, wrapped', gaps', currentLine', s);
        assert gaps' == gaps + [off + Cells(token, s)];
        EndsBehind(ts, width, k, wrapped, gaps, currentLine, s, wrapped'[|wrapped|], off + Cells(token, s));
      } else {
        EndsBefore(ts, width, k, wrapped, gaps, currentLine, s, wrapped'[|wrapped|], off);
        AddMeaning(ts, k, wrapped', gaps', currentLine', s);
        currentLine' := currentLine' + token;
      }
      if WidthKept(ts, width, k, wrapped, currentLine) {
        WrapWidth(ts, width, k, wrapped, currentLine, TrimEnd(currentLine) + LineEndReset(s), currentLine');
      }
    } else {
      AddMeaning(ts, k, wrapped, gaps, currentLine, s);
      currentLine' := currentLine + token;
      if WidthKept(ts, width, k, wrapped, currentLine) {
        AddWidth(ts, width, k, wrapped, currentLine);
      }
    }
    UpdateTracker(token, tracker);
  }

  lemma {:induction false} ActiveAreCodes(s: Style)
    ensures OnlyCodes(ActiveItems(s))
  {
    hide SgrCodes, SgrText, FormatOsc8;
  }

  lemma {:induction false} StartMeaning(ts: seq<Line>, width: nat)
    ensures MeaningKept(ts, 0, [], [], [], CLEAR) && WidthKept(ts, width, 0, [], [])
      && Width([]) == Column(ts, width, 0)
  {
    assert ts[..0] == [];
  }

  method WrapTokens(ts: seq<Line>, width: nat, tracker: AnsiCodeTracker)
      returns (wrapped: seq<Line>, currentLine: Line, ghost gaps: seq<seq<Cell>>)
    requires tracker.State() == CLEAR && forall k :: 0 <= k < |ts| ==> WellFormed(ts[k])
    modifies tracker
    ensures MeaningKept(ts, |ts|, wrapped, gaps, currentLine, tracker.State())
    ensures AllNarrow(ts, width) ==> WidthKept(ts, width, |ts|, wrapped, currentLine)
    ensures Filled(ts, width, wrapped, gaps, |wrapped|)
  {
    hide Cells, Width, WellFormed, MeaningKept, WidthKept, AllNarrow, IsBlank, Column, Filled;
    wrapped, currentLine, gaps := [], [], [];
    StartMeaning(ts, width);
    NothingFilled(ts, width);
    for k := 0 to |ts|
      invariant MeaningKept(ts, k, wrapped, gaps, currentLine, tracker.State())
      invariant Width(currentLine) == Column(ts, width, k)
      invariant Filled(ts, width, wrapped, gaps, |wrapped|)
      invariant AllNarrow(ts, width) ==> WidthKept(ts, width, k, wrapped, currentLine)
    {
      if Width(ts[k]) > width && !IsBlank(ts[k]) {
        wrapped, currentLine, gaps := TakeLong(ts, k, width, tracker, wrapped, currentLine, gaps);
      } else {
        wrapped, currentLine, gaps := TakeShort(ts, k, width, tracker, wrapped, currentLine, gaps);
      }
    }
  }

  lemma {:induction false} FinishMeaning(ts: seq<Line>, line: Line, wrapped: seq<Line>, gaps: seq<seq<Cell>>,
      currentLine: Line, s: Style)
    requires MeaningKept(ts, |ts|, wrapped, gaps, currentLine, s) && Flatten(ts) == line
    ensures currentLine == [] ==> Rebuilds(Cells(line, CLEAR), wrapped, gaps)
    ensures Rebuilds(Cells(line, CLEAR), wrapped + [currentLine], gaps + [[]])
  {
    hide Good, Flatten, StyleAfter, Interleave;
    assert ts[..|ts|] == ts;
    assert Cells(currentLine, CLEAR) + [] == Cells(currentLine, CLEAR);
    Push(Cells(line, CLEAR), wrapped, gaps, Cells(currentLine, CLEAR), currentLine, []);
    if currentLine == [] {
      assert Interleave(wrapped, gaps) + [] == Interleave(wrapped, gaps);
    }
  }

  lemma {:induction false} OneLine(line: Line)
    ensures Rebuilds(Cells(line, CLEAR), [line], [[]])
  {
    hide Cells;
    var lines, gaps := [line], [[]];
    assert lines[..0] == [] && Interleave(lines[..0], gaps[..0]) == [];
    assert Cells(line, CLEAR) + [] == Cells(line, CLEAR);
  }

  lemma {:induction false} NoCellsNoWidth(line: Line, s: Style)
    requires Cells(line, s) == []
    ensures Width(line) == 0
    decreases |line|
  {
    hide Process;
    if line != [] { NoCellsNoWidth(line[1..], After(line[0], s)); }
  }

  /** Every line but the last had to end where it does, so that it holds as many words as fit, and closes what
      would show beyond its end. No line of a wrapped text ends in whitespace. */
  ghost predicate WellBroken(line: Line, width: nat, lines: seq<Line>, gaps: seq<seq<Cell>>) {
    && lines != [] && Filled(Tokens(line), width, lines, gaps, |lines| - 1)
    && (Width(line) > width ==> forall i :: 0 <= i < |lines| ==> Trimmed(lines[i]))
  }

  lemma {:induction false} FilledToEnd(line: Line, width: nat, lines: seq<Line>, gaps: seq<seq<Cell>>)
    requires |lines| == |gaps| == 1
    ensures Filled(Tokens(line), width, lines, gaps, 0)
  {
  }

  lemma {:induction false} FilledFewer(ts: seq<Line>, width: nat, lines: seq<Line>, gaps: seq<seq<Cell>>, n: nat,
      m: nat)
    requires Filled(ts, width, lines, gaps, n) && m <= n
    ensures Filled(ts, width, lines, gaps, m)
  {
  }

  /** Wraps one line. The output shows the input's cells in order and with their styles, dropping only
      whitespace at line ends; when no grapheme is wider than a line, every output line fits if and
      only if no wide blank run spills. Lines are filled: each but the last ends because the next word, the
      next grapheme of a word wider than a line, or whitespace did not fit. */
  method WrapSingleLine(line: Line, width: nat) returns (lines: seq<Line>, ghost gaps: seq<seq<Cell>>)
    requires WellFormed(line)
    ensures lines != []
    ensures Rebuilds(Cells(line, CLEAR), lines, gaps)
    ensures Narrow(line, width) ==> (AllFit(lines, width) <==> WrapsWithin(line, width))
    ensures WellBroken(line, width, lines, gaps)
  {
    hide Cells, Width, TrimEnd, NoSpill, CodeLength, TokensFrom, Flatten, StyleAfter, Narrow, MeaningKept, Filled,
      SameBreaks;
    if Width(line) <= width {
      lines, gaps := [line], [[]];
      OneLine(line);
      FilledToEnd(line, width, lines, gaps);
      return;
    }
    var tracker := new AnsiCodeTracker();
    var tokens := SplitIntoTokens(line);
    TokensKeepAll(line, [], [], false);
    assert [] + [] + line == line;
    TokensWellFormed(tokens, line, width);
    var wrapped, currentLine;
    wrapped, currentLine, gaps := WrapTokens(tokens, width, tracker);
    FinishMeaning(tokens, line, wrapped, gaps, currentLine, tracker.State());
    FitSnoc(wrapped, currentLine, width);
    ghost var n := |wrapped|;
    if currentLine != [] {
      FilledSnoc(tokens, width, wrapped, gaps, currentLine, []);
      wrapped, gaps := wrapped + [currentLine], gaps + [[]];
    }
    ghost var offs := gaps;
    lines, gaps := TrimLines(wrapped, gaps);
    TrimmedFilled(tokens, width, wrapped, offs, lines, gaps, n);
    if lines == [] {
      NoCellsNoWidth(line, CLEAR);
      lines, gaps := [[]], [[]];
      FilledToEnd(line, width, lines, gaps);
    } else {
      FilledFewer(tokens, width, lines, gaps, n, |lines| - 1);
    }
  }

  // ----- Wrapping a text of several lines

  /** The style in force where input line `i` starts. */
  function StyleAt(text: seq<Line>, i: nat): Style
    requires i <= |text|
  {
    StyleAfter(Flatten(text[..i]), CLEAR)
  }

  /** The lines one input line was wrapped to show its cells in the style the previous lines left. */
  ghost predicate WrapsLine(text: seq<Line>, i: nat, width: nat, group: seq<Line>, gaps: seq<seq<Cell>>)
    requires i < |text|
  {
    && group != [] && Rebuilds(Cells(text[i], StyleAt(text, i)), group, gaps)
    && (Narrow(text[i], width) ==>
         (AllFit(group, width) <==> WrapsWithin(ActiveItems(StyleAt(text, i)) + text[i], width)))
    && WellBroken(ActiveItems(StyleAt(text, i)) + text[i], width, group, gaps)
  }

  /** The output is the lines of the input lines, one group after the other. */
  ghost predicate WrapsText(text: seq<Line>, width: nat, result: seq<Line>, groups: seq<seq<Line>>,
      gaps: seq<seq<seq<Cell>>>) {
    && result == Flatten(groups) && |groups| == |gaps| == |text|
    && forall i :: 0 <= i < |text| ==> WrapsLine(text, i, width, groups[i], gaps[i])
  }

  lemma {:induction false} PrefixCarries(line: Line, s: Style)
    requires Good(s) && WellFormed(line)
    ensures WellFormed(ActiveItems(s) + line) && Cells(ActiveItems(s) + line, CLEAR) == Cells(line, s)
    ensures forall w :: Narrow(ActiveItems(s) + line, w) <==> Narrow(line, w)
  {
    hide Good, ActiveItems, CodeLength, Cells, StyleAfter, Narrow, Width;
    var a := ActiveItems(s);
    ActiveRestores(s);
    CodesAreInvisible(a, CLEAR);
    Concat(a, line, CLEAR);
    forall w: nat ensures Narrow(a + line, w) <==> Narrow(line, w) { CodesStayNarrow(a, line, w); }
  }

  lemma {:induction false} CodesStayNarrow(codes: Line, line: Line, width: nat)
    requires OnlyCodes(codes)
    ensures Narrow(codes + line, width) <==> Narrow(line, width)
  {
    assert forall i :: 0 <= i < |codes| ==> (codes + line)[i] == codes[i];
    assert forall i :: 0 <= i < |line| ==> (codes + line)[|codes| + i] == line[i];
  }

  lemma {:induction false} ClearIsInactive()
    ensures ActiveItems(CLEAR) == [] && Good(CLEAR)
  {
  }

  const LINE_BREAK := Glyph(Grapheme("\n", 0))

  function WithoutBreaks(text: Line): Line {
    if text == [] then [] else (if text[0] == LINE_BREAK then [] else [text[0]]) + WithoutBreaks(text[1..])
  }

  /** The input lines are the text less its line breaks, which show nothing and change no style. */
  lemma {:induction false} LinesAreText(text: Line)
    ensures Flatten(Split(text, LINE_BREAK)) == WithoutBreaks(text)
    decreases |text|
  {
    if text != [] {
      var rest := Split(text[1..], LINE_BREAK);
      LinesAreText(text[1..]);
      if text[0] == LINE_BREAK {
        FlattenCons([], rest);
        assert [] + Flatten(rest) == Flatten(rest);
      } else {
        assert rest == [rest[0]] + rest[1..];
        FlattenCons(rest[0], rest[1..]);
        FlattenCons([text[0]] + rest[0], rest[1..]);
        Reassociate([text[0]], rest[0], Flatten(rest[1..]));
      }
    }
  }

  ghost predicate LinesGood(lines: seq<Line>) { forall i :: 0 <= i < |lines| ==> WellFormed(lines[i]) }

  lemma {:induction false} LinesWellFormed(text: Line)
    requires WellFormed(text)
    ensures LinesGood(Split(text, LINE_BREAK))
  {
    hide CodeLength;
    SplitParts(text, LINE_BREAK);
    var lines := Split(text, LINE_BREAK);
    forall i, j | 0 <= i < |lines|
        && 0 <= j < |lines[i]| ensures lines[i][j] in text { assert lines[i][j] in lines[i]; }
  }

  /** An empty text is one empty line. */
  lemma {:induction false} EmptyText(width: nat)
    ensures WrapsText(Split([], LINE_BREAK), width, [[]], [[[]]], [[[]]])
  {
    hide Good, CodeLength, Rebuilds;
    var lines := Split([], LINE_BREAK);
    assert lines == [[]];
    StartStyle(lines);
    ClearIsInactive();
    OneLine([]);
    assert Width([]) == 0 && ActiveItems(CLEAR) + lines[0] == [];
    FilledToEnd([], width, [[]], [[]]);
    var groups: seq<seq<Line>> := [[[]]];
    assert groups[1..] == [] && Flatten(groups) == groups[0] + [];
  }

  /** Wraps a text. Each of its lines shows its cells in the style the text gives them there, in order
      less whitespace dropped between output lines, and styles carry over line breaks of either kind. */
  method WrapTextWithAnsi(text: Line, width: nat) returns (result: seq<Line>)
    requires WellFormed(text)
    ensures exists groups, gaps :: WrapsText(Split(text, LINE_BREAK), width, result, groups, gaps)
  {
    hide WrapsText, LinesGood;
    if text == [] {
      EmptyText(width);
      return [[]];
    }
    LinesWellFormed(text);
    var inputLines := Split(text, LINE_BREAK);
    result := WrapInputLines(inputLines, width);
  }

  /** The loop over the input lines. */
  method WrapInputLines(text: seq<Line>, width: nat) returns (result: seq<Line>)
    requires text != [] && LinesGood(text)
    ensures exists groups, gaps :: WrapsText(text, width, result, groups, gaps)
  {
    hide Cells, Good, CodeLength, ActiveItems, Rebuilds, WrapsWithin, StyleAfter, AllFit, Narrow, Flatten, WrapsLine,
        StyleAt, WellBroken;
    ghost var groups: seq<seq<Line>>, gaps: seq<seq<seq<Cell>>> := [], [];
    result := [];
    var tracker := new AnsiCodeTracker();
    ClearIsInactive();
    StartStyle(text);
    FlattenNone<Line>();
    for i := 0 to |text|
      invariant tracker.State() == StyleAt(text, i) && Good(tracker.State())
      invariant result == Flatten(groups) && |groups| == |gaps| == i
      invariant i == 0 ==> tracker.State() == CLEAR
      invariant forall k :: 0 <= k < i ==> WrapsLine(text, k, width, groups[k], gaps[k])
    {
      var prefix := if |result| > 0 then ActiveItems(tracker.State()) else [];
      if i > 0 { JoinNonEmpty(text, groups, gaps, width); }
      assert prefix == ActiveItems(tracker.State());
      PrefixCarries(text[i], tracker.State());
      ghost var offs;
      var wrappedLines;
      wrappedLines, offs := WrapSingleLine(prefix + text[i], width);
      LineWrapped(text, i, width, wrappedLines, offs);
      FlattenSnoc(groups, wrappedLines);
      result, groups, gaps := result + wrappedLines, groups + [wrappedLines], gaps + [offs];
      StyleAtStep(text, i);
      StyleGood(text[i], tracker.State());
      UpdateTracker(text[i], tracker);
    }
    assert WrapsText(text, width, result, groups, gaps);
  }

  lemma {:induction false} StartStyle(text: seq<Line>)
    ensures StyleAt(text, 0) == CLEAR
  {
    assert text[..0] == [];
  }

  lemma {:induction false} StyleAtStep(text: seq<Line>, i: nat)
    requires i < |text|
    ensures StyleAt(text, i + 1) == StyleAfter(text[i], StyleAt(text, i))
  {
    hide Cells, StyleAfter, Flatten;
    FlattenStep(text, i);
  }

  lemma {:induction false} LineWrapped(text: seq<Line>, i: nat, width: nat, group: seq<Line>, gaps: seq<seq<Cell>>)
    requires i < |text| && WellFormed(text[i]) && Good(StyleAt(text, i)) && group != []
    requires var line := ActiveItems(StyleAt(text, i)) + text[i];
      Rebuilds(Cells(line, CLEAR), group, gaps)
          && (Narrow(line, width) ==> (AllFit(group, width) <==> WrapsWithin(line, width)))
          && WellBroken(line, width, group, gaps)
    ensures WrapsLine(text, i, width, group, gaps)
  {
    hide Cells, Good, CodeLength, ActiveItems, Rebuilds, WrapsWithin, AllFit, Narrow, StyleAt, WellBroken;
    PrefixCarries(text[i], StyleAt(text, i));
  }

  lemma {:induction false} JoinNonEmpty(text: seq<Line>, groups: seq<seq<Line>>, gaps: seq<seq<seq<Cell>>>, width: nat)
    requires 0 < |groups| == |gaps| <= |text|
      && WrapsLine(text, |groups| - 1, width, groups[|groups| - 1], gaps[|groups| - 1])
    ensures Flatten(groups) != []
  {
    hide WrapsLine, Flatten;
    var k := |groups| - 1;
    GroupNonEmpty(text, k, width, groups[k], gaps[k]);
    assert groups == groups[..k] + [groups[k]];
    FlattenSnoc(groups[..k], groups[k]);
  }

  lemma {:induction false} GroupNonEmpty(text: seq<Line>, i: nat, width: nat, group: seq<Line>, gaps: seq<seq<Cell>>)
    requires i < |text| && WrapsLine(text, i, width, group, gaps)
    ensures group != []
  {
    hide StyleAt, WellBroken, Rebuilds, WrapsWithin, AllFit, Narrow;
  }

  // ----- A line that does not fit

  const UNDERLINED := CLEAR.(underline := true)
  const MARK := Glyph(Grapheme("\U{200B}", 0))
  const SPACE := Glyph(Grapheme(" ", 1))
  const LETTER := Glyph(Grapheme("x", 1))

  lemma {:induction false} SpillTokens(u: Item)
    requires u.Code?
    ensures Tokens([u, MARK, SPACE, SPACE, LETTER, LETTER]) == [[u, MARK], [SPACE, SPACE], [LETTER, LETTER]]
  {
    hide TokensFrom;
    LetterTokens([SPACE, SPACE]);
    TokensSame(SPACE, [LETTER, LETTER], [SPACE], [], true);
    TokensBreak(SPACE, [SPACE, LETTER, LETTER], [u, MARK], [], false);
    TokensSame(MARK, [SPACE, SPACE, LETTER, LETTER], [], [u], false);
    TokensCode(u, [MARK, SPACE, SPACE, LETTER, LETTER], [], [], false);
    assert [SPACE] + [LETTER, LETTER] == [SPACE, LETTER, LETTER] && [SPACE] + [] + [SPACE] == [SPACE, SPACE];
    assert [SPACE] + [SPACE, LETTER, LETTER] == [SPACE, SPACE, LETTER, LETTER] && [] + [SPACE] == [SPACE];
    assert [MARK] + [SPACE, SPACE, LETTER, LETTER] == [MARK, SPACE, SPACE, LETTER, LETTER]
        && [] + [u] + [MARK] == [u, MARK];
    assert [u] + [MARK, SPACE, SPACE, LETTER, LETTER] == [u, MARK, SPACE, SPACE, LETTER, LETTER] && [] + [u] == [u];
  }

  /** Two letters after a blank run. */
  lemma {:induction false} LetterTokens(before: Line)
    requires before != []
    ensures TokensFrom([LETTER, LETTER], before, [], true) == [before] + [[LETTER, LETTER]]
  {
    hide TokensFrom;
    TokensBreak(LETTER, [LETTER], before, [], true);
    TokensSame(LETTER, [], [LETTER], [], false);
    TokensEnd([LETTER, LETTER]);
    assert [LETTER] + [LETTER] == [LETTER, LETTER] && [LETTER] + [] == [LETTER]
        && [LETTER] + [] + [LETTER] == [LETTER, LETTER] && [] + [LETTER] == [LETTER];
  }

  lemma {:induction false} TokensEnd(current: Line)
    requires current != []
    ensures TokensFrom([], current, [], false) == [current]
  {
    assert current + [] == current;
  }

  lemma {:induction false} TokensCode(x: Item, rest: Line, current: Line, pending: Line, inSpace: bool)
    requires x.Code?
    ensures TokensFrom([x] + rest, current, pending, inSpace) == TokensFrom(rest, current, pending + [x], inSpace)
  {
    assert ([x] + rest)[1..] == rest;
  }

  lemma {:induction false} TokensSame(x: Item, rest: Line, current: Line, pending: Line, inSpace: bool)
    requires x.Glyph? && ((x.g.text == " ") == inSpace || current == [])
    ensures TokensFrom([x] + rest, current, pending, inSpace)
      == TokensFrom(rest, current + pending + [x], [], x.g.text == " ")
  {
    assert ([x] + rest)[1..] == rest;
  }

  lemma {:induction false} TokensBreak(x: Item, rest: Line, current: Line, pending: Line, inSpace: bool)
    requires x.Glyph? && (x.g.text == " ") != inSpace && current != []
    ensures TokensFrom([x] + rest, current, pending, inSpace)
      == [current] + TokensFrom(rest, pending + [x], [], x.g.text == " ")
  {
    assert ([x] + rest)[1..] == rest;
  }

  /** No grapheme is wider than the line, yet one output line is: the promise of the documentation
      fails for a zero-width grapheme under underline, a wide blank run and a long word. */
  lemma {:induction false} SpillExample(u: Item)
    requires u.Code? && StyleAfter([u], CLEAR) == UNDERLINED
    ensures var line := [u, MARK, SPACE, SPACE, LETTER, LETTER]; Narrow(line, 1) && !WrapsWithin(line, 1)
  {
    hide Process;
    var line := [u, MARK, SPACE, SPACE, LETTER, LETTER];
    var ts := [[u, MARK], [SPACE, SPACE], [LETTER, LETTER]];
    SpillTokens(u);
    SpillWidths(u);
    assert !IsBlank(ts[0])
        && !IsBlank(ts[2]) by { assert !ts[0][0].Glyph? && !IsSpaceChar('x'); assert LETTER.g.text[0] == 'x'; }
    assert IsBlank(ts[1]);
    assert Column(ts, 1, 1) == 0;
    SpillStyle(u, ts);
    assert Spills(ts, 1, 1);
  }

  lemma {:induction false} SpillWidths(u: Item)
    requires u.Code?
    ensures Width([u, MARK]) == 0 && Width([SPACE, SPACE]) == 2 && Width([LETTER, LETTER]) == 2
    ensures Width([u, MARK, SPACE, SPACE, LETTER, LETTER]) == 4
  {
    hide Width, Cells, StyleAfter, Process;
    Concat([u], [MARK], CLEAR);
    Concat([SPACE], [SPACE], CLEAR);
    Concat([LETTER], [LETTER], CLEAR);
    Single(u, CLEAR); Single(MARK, CLEAR); Single(SPACE, CLEAR); Single(LETTER, CLEAR);
    assert [u] + [MARK] == [u, MARK] && [SPACE] + [SPACE] == [SPACE, SPACE] && [LETTER] + [LETTER] == [LETTER, LETTER];
    Concat([u, MARK], [SPACE, SPACE], CLEAR);
    Concat([u, MARK] + [SPACE, SPACE], [LETTER, LETTER], CLEAR);
    assert [u, MARK] + [SPACE, SPACE] + [LETTER, LETTER] == [u, MARK, SPACE, SPACE, LETTER, LETTER];
  }

  lemma {:induction false} SpillStyle(u: Item, ts: seq<Line>)
    requires u.Code? && StyleAfter([u], CLEAR) == UNDERLINED && ts == [[u, MARK], [SPACE, SPACE], [LETTER, LETTER]]
    ensures StyleAfter(Flatten(ts[..2]), CLEAR) == UNDERLINED
  {
    hide Process, Cells, Width, StyleAfter;
    FlattenStep(ts, 0);
    FlattenStep(ts, 1);
    assert ts[..0] == [] && [u] + [MARK] == [u, MARK] && [SPACE] + [SPACE] == [SPACE, SPACE];
    Concat([u], [MARK], CLEAR);
    Single(MARK, UNDERLINED);
    Concat([SPACE], [SPACE], UNDERLINED);
    Single(SPACE, UNDERLINED);
    NothingAfter();
  }

  lemma {:induction false} NothingAfter()
    ensures StyleAfter(Flatten<Item>([]), CLEAR) == CLEAR
  {
  }

  /** So the width promise is not one about grapheme widths alone. */
  lemma {:induction false} WidthPromiseFails() returns (line: Line)
    ensures WellFormed(line) && Narrow(line, 1) && !WrapsWithin(line, 1)
  {
    hide Process, CodeLength;
    var u := Code(SgrText(UNDERLINED));
    SgrItemsRestore(UNDERLINED);
    assert SgrItems(UNDERLINED) == [u];
    line := [u, MARK, SPACE, SPACE, LETTER, LETTER];
    SpillExample(u);
  }
}
