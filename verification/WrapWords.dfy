/** The words of a line, and where a line break may stand between them. */
module WrapWords {
  import opened Basics
  import opened Strings
  import opened AnsiStyle
  import opened AnsiText

  // ----- Tokens

  lemma {:induction false} FlattenCons(t: Line, ts: seq<Line>)
    ensures Flatten([t] + ts) == t + Flatten(ts)
  {
    assert ([t] + ts)[1..] == ts;
  }

  /** Runs of spaces and of other characters, codes attached to the character that follows them. */
  function TokensFrom(line: Line, current: Line, pending: Line, inSpace: bool): seq<Line>
    decreases |line|
  {
    if line == [] then (if current + pending == [] then [] else [current + pending])
    else if line[0].Code? then TokensFrom(line[1..], current, pending + [line[0]], inSpace)
    else
      var isSpace := line[0].g.text == " ";
      if isSpace != inSpace && current != [] then [current] + TokensFrom(line[1..], pending + [line[0]], [], isSpace)
      else TokensFrom(line[1..], current + pending + [line[0]], [], isSpace)
  }

  function Tokens(line: Line): seq<Line> { TokensFrom(line, [], [], false) }

  /** Splitting loses and reorders nothing. */
  lemma {:induction false} TokensKeepAll(line: Line, current: Line, pending: Line, inSpace: bool)
    ensures Flatten(TokensFrom(line, current, pending, inSpace)) == current + pending + line
    decreases |line|
  {
    hide Flatten;
    if line == [] {
      assert current + pending + line == current + pending;
      FlattenNone<Item>();
      if current + pending != [] { FlattenOne(current + pending); }
    } else {
      var x, rest := line[0], line[1..];
      assert line == [x] + rest;
      if x.Code? {
        TokensKeepAll(rest, current, pending + [x], inSpace);
        LineAssoc(current, pending, [x], rest);
      } else if (x.g.text == " ") != inSpace && current != [] {
        var next := pending + [x];
        TokensKeepAll(rest, next, [], x.g.text == " ");
        FlattenCons(current, TokensFrom(rest, next, [], x.g.text == " "));
        LineAssoc(current, pending, [x], rest);
        assert next + [] == next;
      } else {
        var next := current + pending + [x];
        TokensKeepAll(rest, next, [], x.g.text == " ");
        LineAssoc(current, pending, [x], rest);
        assert next + [] == next;
      }
    }
  }

  lemma {:induction false} FlattenNone<T>()
    ensures Flatten<T>([]) == []
  {
  }

  lemma {:induction false} FlattenOne(t: Line)
    ensures Flatten([t]) == t
  {
    assert [t][1..] == [] && t + [] == t;
  }

  lemma {:induction false} LineAssoc(a: Line, b: Line, c: Line, d: Line)
    ensures a + (b + c) + d == a + b + (c + d) && a + (b + c + d) == a + b + (c + d) && a + b + c + d == a + b + (c + d)
  {
  }

  method SplitIntoTokens(text: Line) returns (tokens: seq<Line>)
    ensures tokens == Tokens(text)
  {
    tokens := [];
    var current: Line, pendingAnsi: Line, inWhitespace := [], [], false;
    for i := 0 to |text|
      invariant Tokens(text) == tokens + TokensFrom(text[i..], current, pendingAnsi, inWhitespace)
    {
      assert text[i..][1..] == text[i + 1..];
      var item := text[i];
      if item.Code? {
        pendingAnsi := pendingAnsi + [item];
      } else {
        var charIsSpace := item.g.text == " ";
        if charIsSpace != inWhitespace && current != [] {
          ghost var later := TokensFrom(text[i + 1..], pendingAnsi + [item], [], charIsSpace);
          assert tokens + ([current] + later) == tokens + [current] + later;
          tokens := tokens + [current];
          current := [];
        }
        assert [] + pendingAnsi == pendingAnsi;
        current := current + pendingAnsi + [item];
        pendingAnsi := [];
        inWhitespace := charIsSpace;
      }
    }
    current := current + pendingAnsi;
    if current != [] {
      tokens := tokens + [current];
    }
  }

  // ----- What the tokens are

  /** Every grapheme of the token is a space, or none is. */
  predicate Kind(t: Line, space: bool) { forall i :: 0 <= i < |t| && t[i].Glyph? ==> (t[i].g.text == " ") == space }

  predicate EndsInGlyph(t: Line) { t != [] && t[|t| - 1].Glyph? }

  /** Tokens are not empty, codes stand before the grapheme that follows them, and runs of spaces alternate
      with runs of other graphemes. */
  ghost predicate Alternating(ts: seq<Line>) {
    && (forall k :: 0 <= k < |ts| ==> ts[k] != [] && (Kind(ts[k], true) || Kind(ts[k], false)))
    && (forall k :: 0 <= k < |ts| - 1 ==> EndsInGlyph(ts[k]) && Turns(ts, k))
  }

  predicate Turns(ts: seq<Line>, k: nat)
    requires k + 1 < |ts|
  {
    (Kind(ts[k], true) && Kind(ts[k + 1], false)) || (Kind(ts[k], false) && Kind(ts[k + 1], true))
  }

  lemma {:induction false} AlternatingCons(t: Line, ts: seq<Line>, space: bool)
    requires EndsInGlyph(t) && Kind(t, space) && ts != [] && Kind(ts[0], !space) && Alternating(ts)
    ensures Alternating([t] + ts)
  {
    hide Kind;
    var all := [t] + ts;
    forall k | 0 <= k < |all| - 1 ensures EndsInGlyph(all[k]) && Turns(all, k) {
      if k > 0 { assert all[k] == ts[k - 1] && all[k + 1] == ts[k] && Turns(ts, k - 1); }
    }
  }

  lemma {:induction false} TokensAlternate(line: Line, current: Line, pending: Line, inSpace: bool)
    requires Kind(current, inSpace) && OnlyCodes(pending) && (current != [] ==> EndsInGlyph(current))
    ensures var ts := TokensFrom(line, current, pending, inSpace);
      Alternating(ts) && (current != [] ==> ts != [] && Kind(ts[0], inSpace))
    decreases |line|
  {
    if line != [] {
      var x, rest := line[0], line[1..];
      if x.Code? {
        TokensAlternate(rest, current, pending + [x], inSpace);
      } else {
        var isSpace := x.g.text == " ";
        if isSpace != inSpace && current != [] {
          TokensAlternate(rest, pending + [x], [], isSpace);
          AlternatingCons(current, TokensFrom(rest, pending + [x], [], isSpace), inSpace);
        } else {
          TokensAlternate(rest, current + pending + [x], [], isSpace);
        }
      }
    }
  }

  /** The tokens of a line are its runs of spaces and of other graphemes, and nothing else. */
  lemma {:induction false} TokensExactly(line: Line)
    ensures Flatten(Tokens(line)) == line && Alternating(Tokens(line))
  {
    TokensKeepAll(line, [], [], false);
    TokensAlternate(line, [], [], false);
  }

  predicate IsBlank(t: Line) { forall i :: 0 <= i < |t| ==> t[i].Glyph? && IsSpace(t[i].g) }
  predicate Long(t: Line, width: nat) { Width(t) > width && !IsBlank(t) }

  lemma {:induction false} FlattenStep(ts: seq<Line>, k: nat)
    requires k < |ts|
    ensures Flatten(ts[..k + 1]) == Flatten(ts[..k]) + ts[k]
    ensures var s := StyleAfter(Flatten(ts[..k]), CLEAR);
      && StyleAfter(Flatten(ts[..k + 1]), CLEAR) == StyleAfter(ts[k], s)
      && Cells(Flatten(ts[..k + 1]), CLEAR) == Cells(Flatten(ts[..k]), CLEAR) + Cells(ts[k], s)
  {
    hide Cells, StyleAfter, Width, Flatten;
    assert ts[..k + 1] == ts[..k] + [ts[k]];
    FlattenSnoc(ts[..k], ts[k]);
    Concat(Flatten(ts[..k]), ts[k], CLEAR);
  }


  // ----- Columns

  /** The columns that cells take. */
  function Columns(cells: seq<Cell>): nat { if cells == [] then 0 else cells[0].g.width + Columns(cells[1..]) }

  lemma {:induction false} ColumnsConcat(a: seq<Cell>, b: seq<Cell>)
    ensures Columns(a + b) == Columns(a) + Columns(b)
    decreases |a|
  {
    if a == [] {
      assert a + b == b;
    } else {
      assert (a + b)[0] == a[0] && (a + b)[1..] == a[1..] + b;
      ColumnsConcat(a[1..], b);
    }
  }

  lemma {:induction false} WidthColumns(line: Line, s: Style)
    ensures Width(line) == Columns(Cells(line, s))
    decreases |line|
  {
    hide Process;
    if line != [] {
      WidthColumns(line[1..], After(line[0], s));
      ColumnsConcat(Shown(line[0], s), Cells(line[1..], After(line[0], s)));
      assert line[0].Glyph? ==> Shown(line[0], s)[1..] == [];
    }
  }

  // ----- Where a line may break

  function AllCells(ts: seq<Line>): seq<Cell> { Cells(Flatten(ts), CLEAR) }

  /** The number of cells before token `k`. */
  function Start(ts: seq<Line>, k: nat): nat
    requires k <= |ts|
  {
    |AllCells(ts[..k])|
  }

  /** Whitespace that did not fit was dropped: the break stands behind a blank token, and the line with it
      takes more columns than allowed, and more than the token alone. */
  ghost predicate BreaksAtBlank(ts: seq<Line>, width: nat, a: nat, b: nat, k: nat) {
    && k < |ts| && a <= Start(ts, k) && a <= b == Start(ts, k + 1) <= |AllCells(ts)| && IsBlank(ts[k])
    && Columns(AllCells(ts)[a..b]) > Max(width, Width(ts[k]))
  }

  /** The break stands before a word that did not fit on the line. */
  ghost predicate BreaksBeforeWord(ts: seq<Line>, width: nat, a: nat, b: nat, k: nat) {
    && k < |ts| && a <= b == Start(ts, k) <= |AllCells(ts)| && !IsBlank(ts[k])
    && Columns(AllCells(ts)[a..b]) + Width(ts[k]) > width
  }

  /** The break stands inside a word wider than a line, before a grapheme that did not fit behind the piece
      of the word on the line. */
  ghost predicate BreaksInWord(ts: seq<Line>, width: nat, a: nat, b: nat, k: nat) {
    && k < |ts| && Long(ts[k], width) && Start(ts, k) <= a <= b < Start(ts, k + 1) <= |AllCells(ts)|
    && Columns(AllCells(ts)[a..b]) + AllCells(ts)[b].g.width > width
  }

  /** A line that takes the cells from `a` up to `b`, dropped whitespace included, had to end there. */
  ghost predicate HadToBreak(ts: seq<Line>, width: nat, a: nat, b: nat) {
    exists k: nat :: BreaksAtBlank(ts, width, a, b, k) || BreaksBeforeWord(ts, width, a, b, k)
      || BreaksInWord(ts, width, a, b, k)
  }

  /** Where line `j` starts among the cells of the text. */
  function Position(lines: seq<Line>, gaps: seq<seq<Cell>>, j: nat): nat
    requires |lines| == |gaps| && j <= |lines|
  {
    |Interleave(lines[..j], gaps[..j])|
  }

  /** The line switches off what would show beyond its end. */
  predicate Closes(line: Line) { Closed(StyleAfter(line, CLEAR)) }

  /** The first `n` lines had to break where they do, and close. */
  ghost predicate Filled(ts: seq<Line>, width: nat, lines: seq<Line>, gaps: seq<seq<Cell>>, n: nat) {
    && |lines| == |gaps| && n <= |lines|
    && forall j :: 0 <= j < n ==>
         HadToBreak(ts, width, Position(lines, gaps, j), Position(lines, gaps, j + 1)) && Closes(lines[j])
  }

  /** A line closes once the codes for its style are written behind it, trimmed or not. */
  lemma {:induction false} ResetLineCloses(line: Line, s: Style)
    requires StyleAfter(line, CLEAR) == s
    ensures Closes(line + LineEndReset(s)) && Closes(TrimEnd(line) + LineEndReset(s))
  {
    hide StyleAfter, Cells, Width, LineEndReset, TrimEnd;
    ResetCloses(s);
    TrimTrims(line, CLEAR);
    Concat(line, LineEndReset(s), CLEAR);
    Concat(TrimEnd(line), LineEndReset(s), CLEAR);
  }

  lemma {:induction false} CellsSplit(ts: seq<Line>, k: nat)
    requires k <= |ts|
    ensures AllCells(ts[..k]) <= AllCells(ts)
    decreases |ts| - k
  {
    hide Cells, StyleAfter, Flatten, Width;
    if k == |ts| {
      assert ts[..k] == ts;
    } else {
      CellsSplit(ts, k + 1);
      FlattenStep(ts, k);
    }
  }

  lemma {:induction false} StartStep(ts: seq<Line>, k: nat)
    requires k < |ts|
    ensures var s := StyleAfter(Flatten(ts[..k]), CLEAR);
      && Start(ts, k) <= Start(ts, k + 1) <= |AllCells(ts)|
      && AllCells(ts)[..Start(ts, k)] == AllCells(ts[..k])
      && AllCells(ts)[Start(ts, k)..Start(ts, k + 1)] == Cells(ts[k], s)
      && AllCells(ts)[..Start(ts, k + 1)] == AllCells(ts[..k]) + Cells(ts[k], s)
  {
    hide Cells, StyleAfter, Flatten, Width;
    FlattenStep(ts, k);
    CellsSplit(ts, k);
    CellsSplit(ts, k + 1);
    assert AllCells(ts[..k + 1]) == AllCells(ts)[..Start(ts, k + 1)];
  }

  /** A word no wider than a line is never split. */
  lemma {:induction false} ShortWordsWhole(ts: seq<Line>, width: nat, a: nat, b: nat, k: nat)
    requires HadToBreak(ts, width, a, b) && k < |ts| && !Long(ts[k], width)
    ensures !(Start(ts, k) < b < Start(ts, k + 1))
  {
    hide Start, AllCells, Width, IsBlank;
    var n: nat :| BreaksAtBlank(ts, width, a, b, n) || BreaksBeforeWord(ts, width, a, b, n)
      || BreaksInWord(ts, width, a, b, n);
    AroundToken(ts, k, n);
    if n + 1 <= |ts| { AroundToken(ts, k, n + 1); }
  }

  lemma {:induction false} AroundToken(ts: seq<Line>, k: nat, n: nat)
    requires k < |ts| && n <= |ts|
    ensures if n <= k then Start(ts, n) <= Start(ts, k) else Start(ts, k + 1) <= Start(ts, n)
  {
    hide Start;
    if n <= k { StartsGrow(ts, n, k); } else { StartsGrow(ts, k + 1, n); }
  }

  lemma {:induction false} StartsGrow(ts: seq<Line>, i: nat, j: nat)
    requires i <= j <= |ts|
    ensures Start(ts, i) <= Start(ts, j)
    decreases j
  {
    hide AllCells, Start;
    if i < j {
      StartsGrow(ts, i, j - 1);
      StartStep(ts, j - 1);
    }
  }

  // ----- One more line

  lemma {:induction false} InterleaveConcat(a: seq<Line>, ga: seq<seq<Cell>>, b: seq<Line>, gb: seq<seq<Cell>>)
    requires |a| == |ga| && |b| == |gb|
    ensures Interleave(a + b, ga + gb) == Interleave(a, ga) + Interleave(b, gb)
    decreases |b|
  {
    hide Cells, Interleave;
    if b == [] {
      assert a + b == a && ga + gb == ga;
      NothingInterleaved();
    } else {
      var k := |b| - 1;
      assert a + b == (a + b[..k]) + [b[k]] && ga + gb == (ga + gb[..k]) + [gb[k]];
      assert b == b[..k] + [b[k]] && gb == gb[..k] + [gb[k]];
      InterleaveConcat(a, ga, b[..k], gb[..k]);
      InterleaveSnoc(a + b[..k], ga + gb[..k], b[k], gb[k]);
      InterleaveSnoc(b[..k], gb[..k], b[k], gb[k]);
      Reassociate(Interleave(a, ga), Interleave(b[..k], gb[..k]), Cells(b[k], CLEAR) + gb[k]);
    }
  }

  lemma {:induction false} InterleaveSnoc(a: seq<Line>, ga: seq<seq<Cell>>, line: Line, gap: seq<Cell>)
    requires |a| == |ga|
    ensures Interleave(a + [line], ga + [gap]) == Interleave(a, ga) + (Cells(line, CLEAR) + gap)
  {
    hide Cells;
    assert (a + [line])[..|a|] == a && (ga + [gap])[..|a|] == ga;
  }

  lemma {:induction false} NothingInterleaved()
    ensures Interleave([], []) == []
  {
  }

  lemma {:induction false} PositionSnoc(lines: seq<Line>, gaps: seq<seq<Cell>>, line: Line, gap: seq<Cell>)
    requires |lines| == |gaps|
    ensures var ls, gs := lines + [line], gaps + [gap];
      && (forall j :: 0 <= j <= |lines| ==> Position(ls, gs, j) == Position(lines, gaps, j))
      && Position(ls, gs, |lines| + 1) == |Interleave(ls, gs)| && Position(ls, gs, |lines|) == |Interleave(lines, gaps)|
  {
    hide Cells, Interleave;
    var ls, gs := lines + [line], gaps + [gap];
    forall j | 0 <= j <= |lines| ensures ls[..j] == lines[..j] && gs[..j] == gaps[..j] {}
    assert ls[..|lines|] == lines && gs[..|lines|] == gaps;
    assert ls[..|lines| + 1] == ls && gs[..|lines| + 1] == gs;
  }

  lemma {:induction false} FilledSnoc(ts: seq<Line>, width: nat, lines: seq<Line>, gaps: seq<seq<Cell>>, line: Line,
      gap: seq<Cell>)
    requires Filled(ts, width, lines, gaps, |lines|)
    ensures var ls, gs := lines + [line], gaps + [gap];
      && Filled(ts, width, ls, gs, |lines|)
      && (HadToBreak(ts, width, |Interleave(lines, gaps)|, |Interleave(ls, gs)|) && Closes(line) ==>
            Filled(ts, width, ls, gs, |lines| + 1))
  {
    hide Cells, Interleave, HadToBreak, Closes;
    PositionSnoc(lines, gaps, line, gap);
    hide Position;
  }

  lemma {:induction false} NothingFilled(ts: seq<Line>, width: nat)
    ensures Filled(ts, width, [], [], 0)
  {
  }

  /** The cells of the line that has been started are those between its start and the next token. */
  lemma {:induction false} CurrentColumns(ts: seq<Line>, k: nat, done: seq<Cell>, current: seq<Cell>)
    requires k < |ts| && done + current == AllCells(ts[..k])
    ensures |done| <= Start(ts, k) <= Start(ts, k + 1) <= |AllCells(ts)|
    ensures Columns(AllCells(ts)[|done|..Start(ts, k)]) == Columns(current)
    ensures Columns(AllCells(ts)[|done|..Start(ts, k + 1)]) == Columns(current) + Width(ts[k])
  {
    hide Cells, StyleAfter, Flatten, Width, Columns, AllCells;
    var s := StyleAfter(Flatten(ts[..k]), CLEAR);
    StartStep(ts, k);
    var all, a, b, c := AllCells(ts), |done|, Start(ts, k), Start(ts, k + 1);
    assert all[a..b] == all[..b][a..] == current;
    assert all[a..c] == all[..c][a..] == current + Cells(ts[k], s);
    ColumnsConcat(current, Cells(ts[k], s));
    WidthColumns(ts[k], s);
  }

  // ----- The pieces of a broken word

  function NoGaps(n: nat): seq<seq<Cell>> { seq(n, _ => []) }

  /** A piece of the cells ends before a cell that did not fit. */
  ghost predicate PieceEnds(cells: seq<Cell>, width: nat, a: nat, b: nat) {
    a <= b < |cells| && Columns(cells[a..b]) + cells[b].g.width > width
  }

  ghost predicate Pieces(cells: seq<Cell>, width: nat, lines: seq<Line>) {
    forall j :: 0 <= j < |lines| ==>
      PieceEnds(cells, width, Position(lines, NoGaps(|lines|), j), Position(lines, NoGaps(|lines|), j + 1))
      && Closes(lines[j])
  }

  lemma {:induction false} PiecesSnoc(cells: seq<Cell>, width: nat, lines: seq<Line>, line: Line)
    requires Pieces(cells, width, lines) && Closes(line)
    requires PieceEnds(cells, width, |Interleave(lines, NoGaps(|lines|))|,
      |Interleave(lines + [line], NoGaps(|lines| + 1))|)
    ensures Pieces(cells, width, lines + [line])
  {
    hide Cells, Interleave, PieceEnds, Closes;
    assert NoGaps(|lines|) + [[]] == NoGaps(|lines| + 1);
    PositionSnoc(lines, NoGaps(|lines|), line, []);
    hide Position;
  }

  lemma {:induction false} PositionConcat(a: seq<Line>, ga: seq<seq<Cell>>, b: seq<Line>, gb: seq<seq<Cell>>, j: nat)
    requires |a| == |ga| && |b| == |gb| && j <= |a| + |b|
    ensures Position(a + b, ga + gb, j)
      == if j <= |a| then Position(a, ga, j) else |Interleave(a, ga)| + Position(b, gb, j - |a|)
  {
    hide Cells, Interleave;
    if j <= |a| {
      assert (a + b)[..j] == a[..j] && (ga + gb)[..j] == ga[..j];
    } else {
      assert (a + b)[..j] == a + b[..j - |a|] && (ga + gb)[..j] == ga + gb[..j - |a|];
      InterleaveConcat(a, ga, b[..j - |a|], gb[..j - |a|]);
    }
  }

  lemma {:induction false} PieceBreaks(ts: seq<Line>, width: nat, k: nat, a: nat, b: nat)
    requires k < |ts| && Long(ts[k], width)
    requires PieceEnds(Cells(ts[k], StyleAfter(Flatten(ts[..k]), CLEAR)), width, a, b)
    ensures HadToBreak(ts, width, Start(ts, k) + a, Start(ts, k) + b)
  {
    hide StyleAfter, Flatten, Width, IsBlank, Cells, Columns, AllCells, Start;
    var cells := Cells(ts[k], StyleAfter(Flatten(ts[..k]), CLEAR));
    StartStep(ts, k);
    var all, p, q := AllCells(ts), Start(ts, k), Start(ts, k + 1);
    assert all[p..q] == cells && |cells| == q - p;
    assert all[p + a..p + b] == all[p..q][a..b] && all[p + b] == all[p..q][b];
    assert BreaksInWord(ts, width, p + a, p + b, k);
  }

  lemma {:induction false} FilledPieces(ts: seq<Line>, width: nat, k: nat, lines: seq<Line>, gaps: seq<seq<Cell>>,
      broken: seq<Line>)
    requires k < |ts| && Long(ts[k], width) && Filled(ts, width, lines, gaps, |lines|)
    requires |Interleave(lines, gaps)| == Start(ts, k)
    requires Pieces(Cells(ts[k], StyleAfter(Flatten(ts[..k]), CLEAR)), width, broken)
    ensures Filled(ts, width, lines + broken, gaps + NoGaps(|broken|), |lines| + |broken|)
  {
    hide StyleAfter, Flatten, Width, IsBlank, Cells, Interleave, HadToBreak, PieceEnds, Start, Closes;
    var g := NoGaps(|broken|);
    PositionConcat(lines, gaps, broken, g, |lines|);
    assert Position(broken, g, 0) == 0 && Position(lines, gaps, |lines|) == |Interleave(lines, gaps)| by {
      assert lines[..|lines|] == lines && gaps[..|lines|] == gaps && broken[..0] == [] && g[..0] == [];
      NothingInterleaved();
    }
    hide Position;
    forall j | 0 <= j < |lines| + |broken|
      ensures HadToBreak(ts, width, Position(lines + broken, gaps + g, j), Position(lines + broken, gaps + g, j + 1))
        && Closes((lines + broken)[j])
    {
      PositionConcat(lines, gaps, broken, g, j);
      PositionConcat(lines, gaps, broken, g, j + 1);
      if j >= |lines| {
        PieceBreaks(ts, width, k, Position(broken, g, j - |lines|), Position(broken, g, j - |lines| + 1));
      }
    }
  }

  // ----- The same lines with more whitespace dropped

  /** `lines'` show the cells of `lines`, each up to the same place, and are those lines trimmed. */
  ghost predicate SameBreaks(lines: seq<Line>, gaps: seq<seq<Cell>>, lines': seq<Line>, gaps': seq<seq<Cell>>) {
    && |lines| == |gaps| == |lines'| == |gaps'|
    && forall j :: 0 <= j <= |lines| ==> Position(lines', gaps', j) == Position(lines, gaps, j)
  }

  lemma {:induction false} BreaksSnoc(lines: seq<Line>, gaps: seq<seq<Cell>>, line: Line, gap: seq<Cell>,
      lines': seq<Line>, gaps': seq<seq<Cell>>, line': Line, gap': seq<Cell>)
    requires SameBreaks(lines, gaps, lines', gaps')
    requires |Interleave(lines + [line], gaps + [gap])| == |Interleave(lines' + [line'], gaps' + [gap'])|
    ensures SameBreaks(lines + [line], gaps + [gap], lines' + [line'], gaps' + [gap'])
  {
    hide Cells, Interleave;
    PositionSnoc(lines, gaps, line, gap);
    PositionSnoc(lines', gaps', line', gap');
    hide Position;
  }

  lemma {:induction false} TrimmedFilled(ts: seq<Line>, width: nat, lines: seq<Line>, gaps: seq<seq<Cell>>,
      lines': seq<Line>, gaps': seq<seq<Cell>>, n: nat)
    requires Filled(ts, width, lines, gaps, n) && SameBreaks(lines, gaps, lines', gaps')
    requires forall j :: 0 <= j < |lines| ==> lines'[j] == TrimEnd(lines[j])
    ensures Filled(ts, width, lines', gaps', n)
    ensures forall j :: 0 <= j < |lines| ==> Trimmed(lines'[j])
  {
    hide HadToBreak, Position, StyleAfter, TrimEnd, Cells;
    forall j | 0 <= j < |lines| ensures Trimmed(lines'[j]) && (Closes(lines[j]) ==> Closes(lines'[j])) {
      TrimTrims(lines[j], CLEAR);
    }
  }
}
