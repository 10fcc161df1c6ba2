/** Splicing an overlay into a line overwrites the columns it covers and no others. */
module Compositing {
  import opened Basics
  import opened AnsiStyle
  import opened AnsiCodes
  import opened AnsiRoundTrip
  import opened AnsiText
  import opened AnsiTracker
  import opened Strings

  // ----- Cells by column

  /** Each cell once per column it covers. */
  function Columns(cells: seq<Cell>): seq<Cell> {
    if cells == [] then [] else Repeat(cells[0], cells[0].g.width) + Columns(cells[1..])
  }

  function Repeat(c: Cell, n: nat): (r: seq<Cell>)
    ensures |r| == n
  {
    seq(n, _ => c)
  }

  lemma {:induction false} ColumnsConcat(a: seq<Cell>, b: seq<Cell>)
    ensures Columns(a + b) == Columns(a) + Columns(b)
  {
    if a == [] {
      assert a + b == b;
    } else {
      assert (a + b)[0] == a[0] && (a + b)[1..] == a[1..] + b;
      ColumnsConcat(a[1..], b);
      Reassociate(Repeat(a[0], a[0].g.width), Columns(a[1..]), Columns(b));
    }
  }

  lemma {:induction false} ColumnsWidth(line: Line, s: Style)
    ensures |Columns(Cells(line, s))| == Width(line)
    decreases |line|
  {
    hide Process;
    if line != [] {
      ColumnsConcat(Shown(line[0], s), Cells(line[1..], After(line[0], s)));
      ColumnsWidth(line[1..], After(line[0], s));
      if line[0].Glyph? {
        var one := [Cell(line[0].g, s)];
        assert one[1..] == [] && Columns(one) == Repeat(one[0], line[0].g.width) + [];
      }
    }
  }

  // ----- Cells picked by the column they start in

  predicate Picked(col: nat, w: nat, lo: nat, hi: int, strict: bool) {
    lo <= col < hi && (!strict || col + w <= hi)
  }

  /** The cells that start in columns `lo..hi`, those that reach past `hi` left out when `strict`. */
  function Pick(line: Line, col: nat, s: Style, lo: nat, hi: int, strict: bool): seq<Cell> {
    if line == [] then [] else
      (if line[0].Glyph? && Picked(col, line[0].g.width, lo, hi, strict) then [Cell(line[0].g, s)] else [])
      + Pick(line[1..], col + WidthOf(line[0]), After(line[0], s), lo, hi, strict)
  }

  lemma {:induction false} PickConcat(a: Line, b: Line, col: nat, s: Style, lo: nat, hi: int, strict: bool)
    ensures Pick(a + b, col, s, lo, hi, strict)
         == Pick(a, col, s, lo, hi, strict) + Pick(b, col + Width(a), StyleAfter(a, s), lo, hi, strict)
    decreases |a|
  {
    hide Process;
    if a == [] {
      assert a + b == b;
    } else {
      assert (a + b)[0] == a[0] && (a + b)[1..] == a[1..] + b;
      PickConcat(a[1..], b, col + WidthOf(a[0]), After(a[0], s), lo, hi, strict);
    }
  }

  lemma {:induction false} PickNothing(line: Line, col: nat, s: Style, lo: nat, hi: int, strict: bool)
    requires col >= hi
    ensures Pick(line, col, s, lo, hi, strict) == []
    decreases |line|
  {
    hide Process;
    if line != [] { PickNothing(line[1..], col + WidthOf(line[0]), After(line[0], s), lo, hi, strict); }
  }

  lemma {:induction false} PickSnoc(line: Line, i: nat, lo: nat, hi: int, strict: bool)
    requires i < |line|
    ensures var s, col := StyleAfter(line[..i], CLEAR), Width(line[..i]); var x := line[i];
      && Pick(line[..i + 1], 0, CLEAR, lo, hi, strict) == Pick(line[..i], 0, CLEAR, lo, hi, strict)
           + (if x.Glyph? && Picked(col, x.g.width, lo, hi, strict) then [Cell(x.g, s)] else [])
      && StyleAfter(line[..i + 1], CLEAR) == After(x, s)
      && Width(line[..i + 1]) == col + WidthOf(x)
  {
    hide Process;
    var s, col, x := StyleAfter(line[..i], CLEAR), Width(line[..i]), line[i];
    assert line[..i + 1] == line[..i] + [x];
    PickConcat(line[..i], [x], 0, CLEAR, lo, hi, strict);
    Concat(line[..i], [x], CLEAR);
    Single(x, s);
    assert [x][1..] == [];
    assert Pick([x][1..], col + WidthOf(x), After(x, s), lo, hi, strict) == [];
    assert Pick([x], col, s, lo, hi, strict)
        == (if x.Glyph? && Picked(col, x.g.width, lo, hi, strict) then [Cell(x.g, s)] else []) + [];
  }

  /** What comes after the last column looked at is not picked. */
  lemma {:induction false} PickRest(line: Line, i: nat, lo: nat, hi: int, strict: bool)
    requires i <= |line| && (i == |line| || Width(line[..i]) >= hi)
    ensures Pick(line, 0, CLEAR, lo, hi, strict) == Pick(line[..i], 0, CLEAR, lo, hi, strict)
  {
    hide Pick;
    assert line == line[..i] + line[i..];
    PickConcat(line[..i], line[i..], 0, CLEAR, lo, hi, strict);
    if i < |line| {
      PickNothing(line[i..], Width(line[..i]), StyleAfter(line[..i], CLEAR), lo, hi, strict);
    } else {
      assert line[i..] == [] && line[..i] == line;
    }
  }

  /** The column, counted from `col`, in which cell `k` starts. */
  function StartColumn(cells: seq<Cell>, col: nat, k: nat): nat
    requires k <= |cells|
  {
    if k == 0 then col else cells[0].g.width + StartColumn(cells[1..], col, k - 1)
  }

  /** Cell `k` lies in columns `lo..hi`: it starts there and, when `strict`, ends there too. */
  predicate Inside(cells: seq<Cell>, col: nat, k: nat, lo: nat, hi: int, strict: bool)
    requires k < |cells|
  {
    lo <= StartColumn(cells, col, k) < hi && (strict ==> StartColumn(cells, col, k + 1) <= hi)
  }

  /** `picked` are cells `i..j`, which are all that lie inside. */
  ghost predicate IsRange(cells: seq<Cell>, col: nat, lo: nat, hi: int, strict: bool, picked: seq<Cell>, i: nat, j: nat)
  {
    && i <= j <= |cells| && picked == cells[i..j]
    && forall k :: 0 <= k < |cells| ==> (Inside(cells, col, k, lo, hi, strict) <==> i <= k < j)
  }

  lemma {:induction false} StartMoves(cells: seq<Cell>, col: nat, k: nat)
    requires 0 < k <= |cells|
    ensures StartColumn(cells, col, k) == StartColumn(cells[1..], col + cells[0].g.width, k - 1)
  {
    StartShift(cells[1..], col, cells[0].g.width, k - 1);
  }

  lemma {:induction false} StartShift(cells: seq<Cell>, col: nat, w: nat, k: nat)
    requires k <= |cells|
    ensures StartColumn(cells, col + w, k) == StartColumn(cells, col, k) + w
  {
    if k > 0 { StartShift(cells[1..], col, w, k - 1); }
  }

  lemma {:induction false} StartsGrow(cells: seq<Cell>, col: nat, k: nat)
    requires k <= |cells|
    ensures StartColumn(cells, col, k) >= col
  {
    if k > 0 { StartsGrow(cells[1..], col, k - 1); }
  }

  /** Picking takes exactly the cells that lie inside, which are consecutive. */
  lemma {:induction false} PickIsRange(line: Line, col: nat, s: Style, lo: nat, hi: int, strict: bool)
      returns (i: nat, j: nat)
    ensures IsRange(Cells(line, s), col, lo, hi, strict, Pick(line, col, s, lo, hi, strict), i, j)
    decreases |line|
  {
    hide Process, IsRange;
    if line == [] {
      i, j := 0, 0;
      NoCells(col, lo, hi, strict);
    } else {
      var x, rest := line[0], line[1..];
      i, j := PickIsRange(rest, col + WidthOf(x), After(x, s), lo, hi, strict);
      var cells := Cells(rest, After(x, s));
      var picked := Pick(rest, col + WidthOf(x), After(x, s), lo, hi, strict);
      if x.Code? {
        assert Cells(line, s) == [] + cells == cells && Pick(line, col, s, lo, hi, strict) == [] + picked == picked;
      } else {
        assert [] + picked == picked;
        i, j := RangeCons(Cell(x.g, s), cells, col, lo, hi, strict, picked, i, j);
      }
    }
  }

  lemma {:induction false} NoCells(col: nat, lo: nat, hi: int, strict: bool)
    ensures IsRange([], col, lo, hi, strict, [], 0, 0)
  {
  }

  lemma {:induction false} RangeCons(c: Cell, rest: seq<Cell>, col: nat, lo: nat, hi: int, strict: bool,
      picked: seq<Cell>, i: nat, j: nat) returns (i': nat, j': nat)
    requires IsRange(rest, col + c.g.width, lo, hi, strict, picked, i, j)
    ensures IsRange([c] + rest, col, lo, hi, strict,
      if Picked(col, c.g.width, lo, hi, strict) then [c] + picked else picked, i', j')
  {
    hide StartColumn;
    var cells := [c] + rest;
    assert cells[1..] == rest;
    FirstStart(cells, col);
    forall k | 0 < k < |cells|
      ensures Inside(cells, col, k, lo, hi, strict) <==> Inside(rest, col + c.g.width, k - 1, lo, hi, strict)
    {
      StartMoves(cells, col, k);
      StartMoves(cells, col, k + 1);
    }
    if Picked(col, c.g.width, lo, hi, strict) {
      i', j' := 0, if i == j then 1 else j + 1;
      NothingSkipped(rest, col + c.g.width, lo, hi, strict, i, j);
    } else {
      i', j' := if i == j then |cells| else i + 1, if i == j then |cells| else j + 1;
    }
  }

  lemma {:induction false} FirstStart(cells: seq<Cell>, col: nat)
    requires cells != []
    ensures StartColumn(cells, col, 0) == col && StartColumn(cells, col, 1) == col + cells[0].g.width
  {
  }

  /** Cells behind one that starts inside do not come before the range. */
  lemma {:induction false} NothingSkipped(cells: seq<Cell>, col: nat, lo: nat, hi: int, strict: bool, i: nat, j: nat)
    requires i <= j <= |cells| && col >= lo
    requires forall k :: 0 <= k < |cells| ==> (Inside(cells, col, k, lo, hi, strict) <==> i <= k < j)
    ensures i == 0 || i == j
  {
    hide StartColumn;
    if 0 < i < j {
      assert Inside(cells, col, i, lo, hi, strict) && !Inside(cells, col, i - 1, lo, hi, strict);
      StartsGrow(cells, col, i - 1);
      StartNext(cells, col, i - 1);
      StartNext(cells, col, i);
    }
  }

  lemma {:induction false} StartNext(cells: seq<Cell>, col: nat, k: nat)
    requires k < |cells|
    ensures StartColumn(cells, col, k + 1) == StartColumn(cells, col, k) + cells[k].g.width
  {
    if k > 0 { StartNext(cells[1..], col, k - 1); }
  }

  // ----- Slicing

  /** How many items come before the first grapheme that starts at or after column `lo`. */
  function Lead(line: Line, col: nat, lo: nat): (k: nat)
    ensures k <= |line|
  {
    if line == [] || (line[0].Glyph? && col >= lo) then 0 else 1 + Lead(line[1..], col + WidthOf(line[0]), lo)
  }

  /** The codes met before column `lo`, or those met from it on. */
  function CodesAt(line: Line, col: nat, lo: nat, early: bool): Line {
    if line == [] then [] else
      (if line[0].Code? && (col < lo) == early then [line[0]]
      else []) + CodesAt(line[1..], col + WidthOf(line[0]), lo, early)
  }

  lemma {:induction false} CodesAtConcat(a: Line, b: Line, col: nat, lo: nat, early: bool)
    ensures CodesAt(a + b, col, lo, early) == CodesAt(a, col, lo, early) + CodesAt(b, col + Width(a), lo, early)
    decreases |a|
  {
    hide WidthOf;
    if a == [] {
      assert a + b == b;
    } else {
      var rest, next := a[1..], col + WidthOf(a[0]);
      var own: Line := if a[0].Code? && (col < lo) == early then [a[0]] else [];
      assert (a + b)[0] == a[0] && (a + b)[1..] == rest + b;
      CodesAtConcat(rest, b, next, lo, early);
      Reassociate(own, CodesAt(rest, next, lo, early), CodesAt(b, next + Width(rest), lo, early));
    }
  }

  lemma {:induction false} CodesAtAreCodes(line: Line, col: nat, lo: nat, early: bool)
    ensures OnlyCodes(CodesAt(line, col, lo, early))
    decreases |line|
  {
    if line != [] { CodesAtAreCodes(line[1..], col + WidthOf(line[0]), lo, early); }
  }

  /** The style in which a slice shows its first grapheme: the codes met inside the range come first,
      those met before it after them. */
  function SliceStyle(line: Line, lo: nat): Style {
    var lead := line[..Lead(line, 0, lo)];
    StyleAfter(CodesAt(lead, 0, lo, false) + CodesAt(lead, 0, lo, true), CLEAR)
  }

  /** What a slice shows. */
  function SliceCells(line: Line, lo: nat, hi: int, strict: bool): seq<Cell> {
    var k := Lead(line, 0, lo);
    Pick(line[k..], Width(line[..k]), SliceStyle(line, lo), lo, hi, strict)
  }

  /** The state of a slice after `i` items. */
  ghost predicate Sliced(line: Line, i: nat, lo: nat, hi: int, strict: bool, text: Line, pending: Line, taken: bool)
    requires i <= |line|
  {
    var k := Lead(line, 0, lo);
    if taken then
      && k <= i && pending == [] && Width(line[..i]) >= lo
      && Cells(text, CLEAR) == Pick(line[k..i], Width(line[..k]), SliceStyle(line, lo), lo, hi, strict)
      && StyleAfter(text, CLEAR) == StyleAfter(line[k..i], SliceStyle(line, lo))
    else
      && i + Lead(line[i..], Width(line[..i]), lo) == k
      && text == CodesAt(line[..i], 0, lo, false) && pending == CodesAt(line[..i], 0, lo, true)
  }

  lemma {:induction false} SlicedStart(line: Line, lo: nat, hi: int, strict: bool)
    ensures Sliced(line, 0, lo, hi, strict, [], [], false) && Width(line[..0]) == 0
  {
    assert line[..0] == [] && line[0..] == line;
  }

  lemma {:induction false} WidthSnoc(line: Line, i: nat)
    requires i < |line|
    ensures Width(line[..i + 1]) == Width(line[..i]) + WidthOf(line[i])
  {
    hide Process;
    assert line[..i + 1] == line[..i] + [line[i]];
    Concat(line[..i], [line[i]], CLEAR);
    Single(line[i], CLEAR);
  }

  /** An item before the first grapheme of the range. */
  lemma {:induction false} SlicedLead(line: Line, i: nat, lo: nat, hi: int, strict: bool, text: Line, pending: Line)
    requires i < |line| && Sliced(line, i, lo, hi, strict, text, pending, false)
    requires line[i].Code? || Width(line[..i]) < lo
    ensures Width(line[..i + 1]) == Width(line[..i]) + WidthOf(line[i])
    ensures var early := Width(line[..i]) < lo;
      Sliced(line, i + 1, lo, hi, strict, if line[i].Code? && !early then text + [line[i]] else text,
                                          if line[i].Code? && early then pending + [line[i]] else pending, false)
  {
    hide Process, Width, CodesAt;
    var x := line[i];
    WidthSnoc(line, i);
    assert line[i..][1..] == line[i + 1..] && line[i..][0] == x && line[..i + 1] == line[..i] + [x];
    CodesAtConcat(line[..i], [x], 0, lo, false);
    CodesAtConcat(line[..i], [x], 0, lo, true);
    OneCode(x, Width(line[..i]), lo, false);
    OneCode(x, Width(line[..i]), lo, true);
  }

  lemma {:induction false} OneCode(x: Item, col: nat, lo: nat, early: bool)
    ensures CodesAt([x], col, lo, early) == if x.Code? && (col < lo) == early then [x] else []
  {
    assert [x][1..] == [];
    assert CodesAt([x][1..], col + WidthOf(x), lo, early) == [];
  }

  /** The first grapheme of the range is reached: the codes held back go in front of it. */
  lemma {:induction false} SlicedFirst(line: Line, i: nat, lo: nat, hi: int, strict: bool, text: Line, pending: Line)
    requires i < |line| && Sliced(line, i, lo, hi, strict, text, pending, false)
    requires line[i].Glyph? && Width(line[..i]) >= lo
    ensures Sliced(line, i, lo, hi, strict, text + pending, [], true)
    ensures Width(text) == Width(pending) == 0 && Width(text + pending) == 0 && Cells(text, CLEAR) == []
  {
    hide Process, Width, Cells, CodesAt, Pick;
    assert line[i..][0] == line[i];
    CodesAtAreCodes(line[..i], 0, lo, false);
    CodesAtAreCodes(line[..i], 0, lo, true);
    CodesAreInvisible(text + pending, CLEAR);
    CodesAreInvisible(text, CLEAR);
    CodesAreInvisible(pending, CLEAR);
    assert line[i..i] == [];
    NothingPicked(Width(line[..i]), SliceStyle(line, lo), lo, hi, strict);
  }

  lemma {:induction false} NothingPicked(col: nat, s: Style, lo: nat, hi: int, strict: bool)
    ensures Pick([], col, s, lo, hi, strict) == []
  {
  }

  lemma {:induction false} PickOne(x: Item, col: nat, s: Style, lo: nat, hi: int, strict: bool)
    ensures Pick([x], col, s, lo, hi, strict) == if x.Glyph?
      && Picked(col, x.g.width, lo, hi, strict) then [Cell(x.g, s)] else []
  {
    hide Process;
    assert [x][1..] == [];
    NothingPicked(col + WidthOf(x), After(x, s), lo, hi, strict);
  }

  lemma {:induction false} SlicedNext(line: Line, i: nat, lo: nat, hi: int, strict: bool, text: Line, pending: Line)
    requires i < |line| && Sliced(line, i, lo, hi, strict, text, pending, true) && Width(line[..i]) < hi
    ensures pending == [] && Width(line[..i + 1]) == Width(line[..i]) + WidthOf(line[i])
    ensures var x := line[i];
      if x.Code? || Picked(Width(line[..i]), x.g.width, lo, hi, strict) then
        Sliced(line, i + 1, lo, hi, strict, text + [x], [], true) && Width(text + [x]) == Width(text) + WidthOf(x)
      else
        Sliced(line, i + 1, lo, hi, strict, text, [], true)
  {
    hide Process, Width, Cells, StyleAfter, CodesAt, Pick, Lead, SliceStyle;
    var x, k, s := line[i], Lead(line, 0, lo), SliceStyle(line, lo);
    WidthSnoc(line, i);
    assert line[k..i + 1] == line[k..i] + [x] && line[..i] == line[..k] + line[k..i];
    Concat(line[..k], line[k..i], CLEAR);
    Concat(line[k..i], [x], s);
    PickConcat(line[k..i], [x], Width(line[..k]), s, lo, hi, strict);
    PickOne(x, Width(line[..i]), StyleAfter(line[k..i], s), lo, hi, strict);
    Concat(text, [x], CLEAR);
    Single(x, StyleAfter(text, CLEAR));
  }

  lemma {:induction false} SlicedEnd(line: Line, i: nat, lo: nat, hi: int, strict: bool, text: Line, pending: Line,
      taken: bool)
    requires i <= |line| && Sliced(line, i, lo, hi, strict, text, pending, taken)
    requires i == |line| || Width(line[..i]) >= hi >= lo
    ensures Cells(text, CLEAR) == SliceCells(line, lo, hi, strict)
  {
    hide Process, Width, Cells, StyleAfter, CodesAt, Pick, Lead, SliceStyle;
    var k, s := Lead(line, 0, lo), SliceStyle(line, lo);
    if taken {
      assert line[k..] == line[k..i] + line[i..] && line[..i] == line[..k] + line[k..i];
      Concat(line[..k], line[k..i], CLEAR);
      PickConcat(line[k..i], line[i..], Width(line[..k]), s, lo, hi, strict);
      if i == |line| {
        assert line[i..] == [];
        NothingPicked(Width(line[..i]), StyleAfter(line[k..i], s), lo, hi, strict);
      } else {
        PickNothing(line[i..], Width(line[..i]), StyleAfter(line[k..i], s), lo, hi, strict);
      }
    } else {
      CodesAtAreCodes(line[..i], 0, lo, false);
      CodesAreInvisible(text, CLEAR);
      LeadGoesOn(line, i, lo);
      if i == |line| {
        assert line[k..] == [];
        NothingPicked(Width(line[..k]), s, lo, hi, strict);
      } else {
        PickNothing(line[k..], Width(line[..k]), s, lo, hi, strict);
      }
    }
  }

  lemma {:induction false} LeadGoesOn(line: Line, i: nat, lo: nat)
    requires i <= |line| && i + Lead(line[i..], Width(line[..i]), lo) == Lead(line, 0, lo)
    ensures i <= Lead(line, 0, lo) && Width(line[..Lead(line, 0, lo)]) >= Width(line[..i])
  {
    hide Process, Lead;
    var k := Lead(line, 0, lo);
    assert line[..k] == line[..i] + line[i..k];
    Concat(line[..i], line[i..k], CLEAR);
  }

  /** The part of a line in columns `startCol..startCol + length`. Codes before the range are held
      back and put in front of the first grapheme taken. */
  method SliceWithWidth(line: Line, startCol: nat, length: int, strict: bool) returns (text: Line, width: nat)
    ensures width == Width(text) && (strict ==> width <= Max(0, length))
    ensures Cells(text, CLEAR) == SliceCells(line, startCol, startCol + length, strict)
  {
    hide Process, Cells, StyleAfter, Pick, Width, Sliced, SliceCells;
    text, width := [], 0;
    EmptySlice();
    var endCol := startCol + length;
    if length <= 0 {
      EmptyRange(line, startCol, endCol, strict);
      return;
    }
    var currentCol, i, pendingAnsi := 0, 0, [];
    ghost var taken := false;
    SlicedStart(line, startCol, endCol, strict);
    while i < |line|
      invariant 0 <= i <= |line| && currentCol == Width(line[..i]) && width == Width(text)
      invariant Sliced(line, i, startCol, endCol, strict, text, pendingAnsi, taken)
      invariant currentCol < endCol && (!taken ==> width == 0)
      invariant strict ==> width <= Max(0, currentCol - startCol)
    {
      var item := line[i];
      if item.Code? {
        CodeStep(line, i, startCol, endCol, strict, text, pendingAnsi, taken);
        if startCol <= currentCol < endCol {
          text := text + [item];
        } else if currentCol < startCol {
          pendingAnsi := pendingAnsi + [item];
        }
        i := i + 1;
      } else {
        var w := item.g.width;
        GlyphStep(line, i, startCol, endCol, strict, text, pendingAnsi, taken);
        if startCol <= currentCol {
          if !strict || currentCol + w <= endCol {
            text := text + pendingAnsi + [item];
            pendingAnsi := [];
            width := width + w;
            taken := true;
          } else {
            // The grapheme reaches past the range, so the slice ends here.
            return;
          }
        }
        currentCol := currentCol + w;
        i := i + 1;
        if currentCol >= endCol {
          SlicedEnd(line, i, startCol, endCol, strict, text, pendingAnsi, taken);
          return;
        }
      }
    }
    SlicedEnd(line, i, startCol, endCol, strict, text, pendingAnsi, taken);
  }

  lemma {:induction false} EmptyRange(line: Line, lo: nat, hi: int, strict: bool)
    requires hi <= lo
    ensures SliceCells(line, lo, hi, strict) == []
  {
    var k := Lead(line, 0, lo);
    PickEmptyRange(line[k..], Width(line[..k]), SliceStyle(line, lo), lo, hi, strict);
  }

  lemma {:induction false} CodeStep(line: Line, i: nat, lo: nat, hi: int, strict: bool, text: Line, pending: Line,
      taken: bool)
    requires i < |line| && line[i].Code? && Width(line[..i]) < hi
      && Sliced(line, i, lo, hi, strict, text, pending, taken)
    ensures Width(line[..i + 1]) == Width(line[..i]) && Width(text + [line[i]]) == Width(text)
    ensures Width(line[..i]) >= lo ==> Sliced(line, i + 1, lo, hi, strict, text + [line[i]], pending, taken)
    ensures Width(line[..i]) < lo ==> Sliced(line, i + 1, lo, hi, strict, text, pending + [line[i]], taken)
  {
    hide Process, Cells, StyleAfter, Pick, Width, CodesAt, Lead, SliceStyle;
    Concat(text, [line[i]], CLEAR);
    Single(line[i], StyleAfter(text, CLEAR));
    if taken {
      SlicedNext(line, i, lo, hi, strict, text, pending);
    } else {
      SlicedLead(line, i, lo, hi, strict, text, pending);
    }
  }

  lemma {:induction false} GlyphStep(line: Line, i: nat, lo: nat, hi: int, strict: bool, text: Line, pending: Line,
      taken: bool)
    requires i < |line| && line[i].Glyph? && Width(line[..i]) < hi && lo <= hi
    requires Sliced(line, i, lo, hi, strict, text, pending, taken)
    ensures Width(line[..i + 1]) == Width(line[..i]) + WidthOf(line[i])
    ensures Width(line[..i]) < lo ==> Sliced(line, i + 1, lo, hi, strict, text, pending, taken) && !taken
    ensures Width(line[..i]) >= lo ==>
      if Picked(Width(line[..i]), line[i].g.width, lo, hi, strict) then
        Sliced(line, i + 1, lo, hi, strict, text + pending + [line[i]], [], true)
        && Width(text + pending + [line[i]]) == Width(text) + WidthOf(line[i])
      else Cells(text, CLEAR) == SliceCells(line, lo, hi, strict)
  {
    hide Process, Cells, StyleAfter, Pick, Width, CodesAt, Lead, SliceStyle, SliceCells, Sliced;
    WidthSnoc(line, i);
    SlicedShape(line, i, lo, hi, strict, text, pending, taken);
    if Width(line[..i]) < lo {
      SlicedLead(line, i, lo, hi, strict, text, pending);
    } else {
      if !taken { SlicedFirst(line, i, lo, hi, strict, text, pending); }
      assert taken ==> text + pending == text;
      SlicedNext(line, i, lo, hi, strict, text + pending, []);
      if !Picked(Width(line[..i]), line[i].g.width, lo, hi, strict) {
        SlicedEnd(line, i + 1, lo, hi, strict, text + pending, [], true);
        if !taken { SameCells(line, i, lo, hi, strict, text, pending); }
      }
    }
  }

  lemma {:induction false} SlicedShape(line: Line, i: nat, lo: nat, hi: int, strict: bool, text: Line, pending: Line,
      taken: bool)
    requires i <= |line| && Sliced(line, i, lo, hi, strict, text, pending, taken)
    ensures taken ==> pending == [] && Width(line[..i]) >= lo
  {
  }

  lemma {:induction false} SameCells(line: Line, i: nat, lo: nat, hi: int, strict: bool, text: Line, pending: Line)
    requires i <= |line| && Sliced(line, i, lo, hi, strict, text, pending, false)
    ensures Cells(text, CLEAR) == Cells(text + pending, CLEAR)
  {
    hide Process, Cells, StyleAfter, Width, CodesAt, Lead;
    CodesAtAreCodes(line[..i], 0, lo, false);
    CodesAtAreCodes(line[..i], 0, lo, true);
    CodesAreInvisible(text, CLEAR);
    CodesAreInvisible(text + pending, CLEAR);
  }

  // ----- Which slices keep the style of what they show

  /** Some code stands inside the range in front of its first grapheme while others wait from before
      the range: the two groups of codes are then written in the opposite order. */
  predicate Reorders(line: Line, lo: nat) {
    var lead := line[..Lead(line, 0, lo)];
    CodesAt(lead, 0, lo, false) != [] && CodesAt(lead, 0, lo, true) != []
  }

  /** In the line itself the codes before the range come first. */
  lemma {:induction false} EarlyFirst(line: Line, col: nat, lo: nat, s: Style)
    ensures StyleAfter(line, s) == StyleAfter(CodesAt(line, col, lo, true) + CodesAt(line, col, lo, false), s)
    decreases |line|
  {
    hide StyleAfter, Process;
    if line == [] {
      assert CodesAt(line, col, lo, true) + CodesAt(line, col, lo, false) == line;
    } else {
      var x, w := line[0], WidthOf(line[0]);
      var e, l := CodesAt(line[1..], col + w, lo, true), CodesAt(line[1..], col + w, lo, false);
      EarlyFirst(line[1..], col + w, lo, After(x, s));
      assert line == [x] + line[1..];
      Concat([x], line[1..], s);
      Single(x, s);
      if x.Code? && col < lo {
        assert [x] + e + l == [x] + (e + l) && [] + l == l;
        Concat([x], e + l, s);
      } else if x.Code? {
        NoEarlyCodes(line[1..], col + w, lo);
        assert [] + ([x] + l) == [x] + l && [] + l == l;
        Concat([x], l, s);
      } else {
        assert [] + e == e && [] + l == l;
      }
    }
  }

  lemma {:induction false} NoEarlyCodes(line: Line, col: nat, lo: nat)
    requires col >= lo
    ensures CodesAt(line, col, lo, true) == []
    decreases |line|
  {
    if line != [] { NoEarlyCodes(line[1..], col + WidthOf(line[0]), lo); }
  }

  /** Nothing is picked from what comes before the first grapheme of the range. */
  lemma {:induction false} LeadUnpicked(line: Line, col: nat, s: Style, lo: nat, hi: int, strict: bool)
    ensures var k := Lead(line, col, lo);
      Pick(line, col, s, lo, hi, strict)
          == Pick(line[k..], col + Width(line[..k]), StyleAfter(line[..k], s), lo, hi, strict)
    decreases |line|
  {
    hide Process;
    var k := Lead(line, col, lo);
    if k == 0 {
      assert line[k..] == line && line[..k] == [];
    } else {
      var w, t := WidthOf(line[0]), After(line[0], s);
      LeadUnpicked(line[1..], col + w, t, lo, hi, strict);
      assert line[1..][k - 1..] == line[k..] && line[..k][1..] == line[1..][..k - 1];
      assert [] + Pick(line[1..], col + w, t, lo, hi, strict) == Pick(line[1..], col + w, t, lo, hi, strict);
    }
  }

  /** A slice shows the cells that start in its range, in the styles they have in the line, exactly
      when swapping the two groups of codes in front of it leaves the style alone (or it is empty). */
  lemma {:induction false} SliceKeepsCells(line: Line, lo: nat, hi: int, strict: bool)
    ensures SliceCells(line, lo, hi, strict) == Pick(line, 0, CLEAR, lo, hi, strict)
      <==> Pick(line, 0, CLEAR, lo, hi, strict) == []
           || SliceStyle(line, lo) == StyleAfter(line[..Lead(line, 0, lo)], CLEAR)
    ensures !Reorders(line, lo) ==> SliceCells(line, lo, hi, strict) == Pick(line, 0, CLEAR, lo, hi, strict)
  {
    hide Process, Pick, StyleAfter, CodesAt, Width, Lead;
    var k := Lead(line, 0, lo);
    var lead := line[..k];
    LeadUnpicked(line, 0, CLEAR, lo, hi, strict);
    LeadStops(line, 0, lo);
    FirstCell(line[k..], Width(lead), SliceStyle(line, lo), StyleAfter(lead, CLEAR), lo, hi, strict);
    EarlyFirst(lead, 0, lo, CLEAR);
    var e, l := CodesAt(lead, 0, lo, true), CodesAt(lead, 0, lo, false);
    assert e == [] || l == [] ==> e + l == l + e;
  }

  /** The first cell picked shows the style the rest starts with. */
  lemma {:induction false} FirstCell(rest: Line, col: nat, s: Style, t: Style, lo: nat, hi: int, strict: bool)
    requires rest != [] ==> rest[0].Glyph? && col >= lo
    ensures var a, b := Pick(rest, col, s, lo, hi, strict), Pick(rest, col, t, lo, hi, strict);
      (a == b <==> b == [] || s == t)
  {
    hide Process;
    if rest != [] {
      var g := rest[0].g;
      if Picked(col, g.width, lo, hi, strict) {
        assert Pick(rest, col, s, lo, hi, strict)[0] == Cell(g, s)
            && Pick(rest, col, t, lo, hi, strict)[0] == Cell(g, t);
      } else {
        PickNothing(rest[1..], col + g.width, s, lo, hi, strict);
        PickNothing(rest[1..], col + g.width, t, lo, hi, strict);
      }
    }
  }

  lemma {:induction false} LeadStops(line: Line, col: nat, lo: nat)
    ensures var k := Lead(line, col, lo); k < |line| ==> line[k].Glyph? && col + Width(line[..k]) >= lo
    decreases |line|
  {
    var k := Lead(line, col, lo);
    if k > 0 {
      LeadStops(line[1..], col + WidthOf(line[0]), lo);
      assert line[..k][1..] == line[1..][..k - 1];
    }
  }

  function Foreground(n: nat): Item { Code(CodeText(n)) }

  lemma {:induction false} ForegroundSet(s: Style, n: nat)
    requires IsFgCode(n)
    ensures After(Foreground(n), s) == s.(fg := Some(ToDecimal(n)))
  {
    hide ToDecimal, Process, CodeText, ApplyCode;
    OneApplies(s, n);
    LeadsUnique(s, n, ApplyCode(s, n), s.(fg := Some(ToDecimal(n))));
  }

  /** One colour, a grapheme, another colour, a grapheme: the slice of the second column shows it in
      the first colour. */
  lemma {:induction false} SliceSwapsCodes(m: nat, n: nat, a: Grapheme, b: Grapheme)
    requires IsFgCode(m) && IsFgCode(n) && a.width == b.width == 1
    ensures var line := [Foreground(m), Glyph(a), Foreground(n), Glyph(b)];
      && SliceCells(line, 1, 2, true) == [Cell(b, CLEAR.(fg := Some(ToDecimal(m))))]
      && Pick(line, 0, CLEAR, 1, 2, true) == [Cell(b, CLEAR.(fg := Some(ToDecimal(n))))]
  {
    hide ToDecimal, After, Pick, Lead, CodesAt, StyleAfter, Width;
    var x, y := Foreground(m), Foreground(n);
    var line := [x, Glyph(a), y, Glyph(b)];
    var c := CLEAR.(fg := Some(ToDecimal(m)));
    ForegroundSet(CLEAR, m);
    ForegroundSet(CLEAR, n);
    ForegroundSet(c, n);
    ForegroundSet(CLEAR.(fg := Some(ToDecimal(n))), m);
    assert line[3..] == [Glyph(b)] && line[..3] == [x, Glyph(a), y];
    SwapStyles(x, a, y, b);
    PickOne(Glyph(b), 1, SliceStyle(line, 1), 1, 2, true);
    PickOne(Glyph(b), 1, StyleAfter(line[..3], CLEAR), 1, 2, true);
    LeadUnpicked(line, 0, CLEAR, 1, 2, true);
  }

  lemma {:induction false} SwapStyles(x: Item, a: Grapheme, y: Item, b: Grapheme)
    requires x.Code? && y.Code? && a.width == 1
    ensures var line := [x, Glyph(a), y, Glyph(b)];
      && Lead(line, 0, 1) == 3 && Width(line[..3]) == 1
      && SliceStyle(line, 1) == After(x, After(y, CLEAR)) && StyleAfter(line[..3], CLEAR) == After(y, After(x, CLEAR))
  {
    hide After, Process;
    var line := [x, Glyph(a), y, Glyph(b)];
    var g := Glyph(a);
    assert line[1..] == [g, y, Glyph(b)] && [g, y, Glyph(b)][1..] == [y, Glyph(b)] && [y, Glyph(b)][1..] == [Glyph(b)];
    assert Lead([y, Glyph(b)], 1, 1) == 1 && Lead([g, y, Glyph(b)], 0, 1) == 2;
    var lead := [x] + ([g] + [y]);
    assert line[..3] == lead;
    Concat([x], [g] + [y], CLEAR);
    Concat([g], [y], After(x, CLEAR));
    Single(x, CLEAR);
    Single(g, After(x, CLEAR));
    Single(y, After(x, CLEAR));
    SwapCodes(x, g, y, true);
    SwapCodes(x, g, y, false);
    Concat([y], [x], CLEAR);
    Single(y, CLEAR);
    Single(x, After(y, CLEAR));
    GlyphKeeps(g, After(x, CLEAR));
  }

  lemma {:induction false} SwapCodes(x: Item, g: Item, y: Item, early: bool)
    requires x.Code? && y.Code? && g.Glyph? && g.g.width == 1
    ensures CodesAt([x] + ([g] + [y]), 0, 1, early) == if early then [x] else [y]
  {
    hide CodesAt, Width, Cells, StyleAfter, Process;
    CodesAtConcat([x], [g] + [y], 0, 1, early);
    CodesAtConcat([g], [y], 0, 1, early);
    Single(x, CLEAR);
    Single(g, CLEAR);
    OneCode(x, 0, 1, early);
    OneCode(g, 0, 1, early);
    OneCode(y, 1, 1, early);
    OnlyOne(x);
    OnlyOne(y);
  }

  lemma {:induction false} OnlyOne(x: Item)
    ensures [x] + ([] + []) == [x] && [] + ([] + [x]) == [x]
  {
  }

  lemma {:induction false} GlyphKeeps(g: Item, s: Style)
    requires g.Glyph?
    ensures After(g, s) == s
  {
  }

  /** A slice from the first column shows a prefix of the line as it is. */
  lemma {:induction false} SliceFromStart(line: Line, hi: int, strict: bool)
    ensures SliceCells(line, 0, hi, strict) == Pick(line, 0, CLEAR, 0, hi, strict)
  {
    hide Pick, Lead, SliceCells;
    NoEarlyCodes(line[..Lead(line, 0, 0)], 0, 0);
    SliceKeepsCells(line, 0, hi, strict);
  }

  lemma {:induction false} EmptySlice()
    ensures Width([]) == 0 && StyleAfter([], CLEAR) == CLEAR && Cells([], CLEAR) == []
    ensures forall lo: nat, hi, strict :: Pick([], 0, CLEAR, lo, hi, strict) == []
  {
  }

  // ----- The parts of a line before and after the overlay

  datatype Segments = Segments(before: Line, beforeWidth: nat, after: Line, afterWidth: nat)

  /** What the pass over the first `i` items has collected. */
  ghost predicate Collected(line: Line, i: nat, beforeEnd: nat, afterStart: nat, afterEnd: int, strict: bool,
      seg: Segments, pending: Line, started: bool)
    requires i <= |line|
  {
    var s, col := StyleAfter(line[..i], CLEAR), Width(line[..i]);
    && Cells(seg.before, CLEAR) == Pick(line[..i], 0, CLEAR, 0, beforeEnd, false)
    && (col < beforeEnd ==> StyleAfter(pending, StyleAfter(seg.before, CLEAR)) == s && !started)
    && Cells(seg.after, CLEAR) == Pick(line[..i], 0, CLEAR, afterStart, afterEnd, strict)
    && (started ==> col >= afterStart && StyleAfter(seg.after, CLEAR) == s)
    && (!started ==> seg.after == [])
    && OnlyCodes(pending) && seg.beforeWidth == Width(seg.before) && seg.afterWidth == Width(seg.after)
  }

  lemma {:induction false} BeforeCode(line: Line, i: nat, beforeEnd: nat, afterStart: nat, afterEnd: int,
      strict: bool, seg: Segments, pending: Line, started: bool)
    requires i < |line| && line[i].Code?
      && Collected(line, i, beforeEnd, afterStart, afterEnd, strict, seg, pending, started)
    ensures Width(line[..i + 1]) == Width(line[..i])
    ensures var col := Width(line[..i]);
      if col < beforeEnd then Collected(line, i + 1, beforeEnd, afterStart, afterEnd, strict, seg, pending + [line[i]],
          started)
      else if started then
        Collected(line, i + 1, beforeEnd, afterStart, afterEnd, strict, seg.(after := seg.after + [line[i]]), pending,
            started)
      else Collected(line, i + 1, beforeEnd, afterStart, afterEnd, strict, seg, pending, started)
  {
    hide Process, Cells, StyleAfter, Pick, Width;
    PickSnoc(line, i, 0, beforeEnd, false);
    PickSnoc(line, i, afterStart, afterEnd, strict);
    Concat(pending, [line[i]], StyleAfter(seg.before, CLEAR));
    Single(line[i], StyleAfter(pending, StyleAfter(seg.before, CLEAR)));
    Concat(seg.after, [line[i]], CLEAR);
    Single(line[i], StyleAfter(seg.after, CLEAR));
  }

  lemma {:induction false} BeforeGlyph(line: Line, i: nat, beforeEnd: nat, afterStart: nat, afterEnd: int,
      strict: bool, seg: Segments, pending: Line, started: bool)
    requires i < |line| && line[i].Glyph? && Width(line[..i]) < beforeEnd <= afterStart
    requires Collected(line, i, beforeEnd, afterStart, afterEnd, strict, seg, pending, started)
    ensures Width(line[..i + 1]) == Width(line[..i]) + line[i].g.width
    ensures Collected(line, i + 1, beforeEnd, afterStart, afterEnd, strict,
                      seg.(before := seg.before + pending + [line[i]],
                          beforeWidth := seg.beforeWidth + line[i].g.width), [], started)
  {
    hide Process, Cells, StyleAfter, Pick, Width;
    var x := line[i];
    PickSnoc(line, i, 0, beforeEnd, false);
    PickSnoc(line, i, afterStart, afterEnd, strict);
    Concat(seg.before, pending, CLEAR);
    CodesAreInvisible(pending, StyleAfter(seg.before, CLEAR));
    Concat(seg.before + pending, [x], CLEAR);
    Single(x, StyleAfter(seg.before + pending, CLEAR));
    NoStyleChange(StyleAfter(seg.before + pending + [x], CLEAR));
  }

  lemma {:induction false} NoStyleChange(s: Style)
    ensures StyleAfter([], s) == s
  {
  }

  lemma {:induction false} LaterGlyph(line: Line, i: nat, beforeEnd: nat, afterStart: nat, afterEnd: int,
      strict: bool, seg: Segments, pending: Line, started: bool)
    requires i < |line| && line[i].Glyph? && Width(line[..i]) >= beforeEnd
    requires Good(StyleAfter(line[..i], CLEAR))
    requires Collected(line, i, beforeEnd, afterStart, afterEnd, strict, seg, pending, started)
    ensures Width(line[..i + 1]) == Width(line[..i]) + line[i].g.width
    ensures var w := line[i].g.width;
      if Picked(Width(line[..i]), w, afterStart, afterEnd, strict) then
        var lead := if started then [] else ActiveItems(StyleAfter(line[..i], CLEAR));
        Collected(line, i + 1, beforeEnd, afterStart, afterEnd, strict,
                  seg.(after := seg.after + lead + [line[i]], afterWidth := seg.afterWidth + w), pending, true)
      else Collected(line, i + 1, beforeEnd, afterStart, afterEnd, strict, seg, pending, started)
  {
    hide Process, Cells, StyleAfter, Pick, Width, Good, ActiveItems;
    var x, s := line[i], StyleAfter(line[..i], CLEAR);
    PickSnoc(line, i, 0, beforeEnd, false);
    PickSnoc(line, i, afterStart, afterEnd, strict);
    var lead := if started then [] else ActiveItems(s);
    ActiveRestores(s);
    CodesAreInvisible(lead, StyleAfter(seg.after, CLEAR));
    Concat(seg.after, lead, CLEAR);
    NoStyleChange(s);
    if !started { assert [] + lead == lead; EmptySlice(); }
    assert Picked(Width(line[..i]), x.g.width, afterStart, afterEnd, strict) ==>
        StyleAfter(seg.after + lead, CLEAR) == s;
    Concat(seg.after + lead, [x], CLEAR);
    Single(x, s);
  }

  lemma {:induction false} PickEmptyRange(line: Line, col: nat, s: Style, lo: nat, hi: int, strict: bool)
    requires hi <= lo
    ensures Pick(line, col, s, lo, hi, strict) == []
    decreases |line|
  {
    hide Process;
    if line != [] { PickEmptyRange(line[1..], col + WidthOf(line[0]), After(line[0], s), lo, hi, strict); }
  }

  lemma {:induction false} CollectedStart(line: Line, beforeEnd: nat, afterStart: nat, afterEnd: int, strict: bool)
    ensures Collected(line, 0, beforeEnd, afterStart, afterEnd, strict, Segments([], 0, [], 0), [], false)
    ensures Width(line[..0]) == 0
  {
    assert line[..0] == [];
    EmptySlice();
  }

  lemma {:induction false} CollectedEnd(line: Line, i: nat, beforeEnd: nat, afterStart: nat, afterEnd: int,
      strict: bool, seg: Segments, pending: Line, started: bool)
    requires i <= |line| && beforeEnd <= afterStart
    requires Collected(line, i, beforeEnd, afterStart, afterEnd, strict, seg, pending, started)
    requires i == |line| || (Width(line[..i]) >= beforeEnd && (Width(line[..i]) >= afterEnd || afterEnd <= afterStart))
    ensures Cells(seg.before, CLEAR) == Pick(line, 0, CLEAR, 0, beforeEnd, false)
    ensures Cells(seg.after, CLEAR) == Pick(line, 0, CLEAR, afterStart, afterEnd, strict)
    ensures seg.beforeWidth == Width(seg.before) && seg.afterWidth == Width(seg.after)
  {
    hide Cells, StyleAfter, Pick, Width;
    PickRest(line, i, 0, beforeEnd, false);
    if afterEnd <= afterStart {
      PickEmptyRange(line, 0, CLEAR, afterStart, afterEnd, strict);
      PickEmptyRange(line[..i], 0, CLEAR, afterStart, afterEnd, strict);
    } else {
      PickRest(line, i, afterStart, afterEnd, strict);
    }
  }

  /** Where the first segment ends: the pass stops early when the second one is asked for and ends
      before it. */
  function BeforeStop(beforeEnd: nat, afterStart: nat, afterLen: int): nat {
    if afterLen > 0 && afterStart + afterLen < beforeEnd then afterStart + afterLen else beforeEnd
  }

  /** One pass collects what starts left of the overlay and what starts right of it; the latter keeps
      the style it had in the line. */
  method ExtractSegments(line: Line, beforeEnd: nat, afterStart: nat, afterLen: int, strictAfter: bool)
      returns (seg: Segments)
    requires WellFormed(line)
    ensures Cells(seg.before, CLEAR) == Pick(line, 0, CLEAR, 0, BeforeStop(beforeEnd, afterStart, afterLen), false)
    ensures Cells(seg.after, CLEAR)
      == Pick(line, 0, CLEAR, Max(beforeEnd, afterStart), afterStart + afterLen, strictAfter)
    ensures seg.beforeWidth == Width(seg.before) && seg.afterWidth == Width(seg.after)
  {
    hide Process, Cells, StyleAfter, Pick, Width, Good, ActiveItems, Collected, CodeLength;
    var afterEnd := afterStart + afterLen;
    ghost var stop, lo := BeforeStop(beforeEnd, afterStart, afterLen), Max(beforeEnd, afterStart);
    seg := Segments([], 0, [], 0);
    var pendingAnsiBefore: Line, afterStarted, currentCol, i := [], false, 0, 0;
    var tracker := new AnsiCodeTracker();
    CollectedStart(line, stop, lo, afterEnd, strictAfter);
    TrackStart(line);
    while i < |line|
      invariant 0 <= i <= |line| && currentCol == Width(line[..i])
      invariant tracker.State() == StyleAfter(line[..i], CLEAR) && Good(tracker.State())
      invariant Collected(line, i, stop, lo, afterEnd, strictAfter, seg, pendingAnsiBefore, afterStarted)
      invariant (afterLen > 0 ==> currentCol < afterEnd) && (afterStarted ==> afterLen > 0)
    {
      var item := line[i];
      TrackItem(line, i);
      if item.Code? {
        BeforeCode(line, i, stop, lo, afterEnd, strictAfter, seg, pendingAnsiBefore, afterStarted);
        if afterStarted {
          StartedIsAfter(line, i, stop, lo, afterEnd, strictAfter, seg, pendingAnsiBefore, afterStarted);
        }
        tracker.Process(item.code);
        if currentCol < beforeEnd {
          pendingAnsiBefore := pendingAnsiBefore + [item];
        } else if afterStart <= currentCol < afterEnd && afterStarted {
          seg := seg.(after := seg.after + [item]);
        }
        i := i + 1;
      } else {
        var w := item.g.width;
        if currentCol < beforeEnd {
          BeforeGlyph(line, i, stop, lo, afterEnd, strictAfter, seg, pendingAnsiBefore, afterStarted);
          seg := seg.(before := seg.before + pendingAnsiBefore + [item], beforeWidth := seg.beforeWidth + w);
          pendingAnsiBefore := [];
        } else {
          LaterGlyph(line, i, stop, lo, afterEnd, strictAfter, seg, pendingAnsiBefore, afterStarted);
          if afterStart <= currentCol < afterEnd && (!strictAfter || currentCol + w <= afterEnd) {
            var lead := if afterStarted then [] else ActiveItems(tracker.State());
            seg := seg.(after := seg.after + lead + [item], afterWidth := seg.afterWidth + w);
            afterStarted := true;
          }
        }
        currentCol := currentCol + w;
        i := i + 1;
        if if afterLen <= 0 then currentCol >= beforeEnd else currentCol >= afterEnd {
          CollectedEnd(line, i, stop, lo, afterEnd, strictAfter, seg, pendingAnsiBefore, afterStarted);
          return;
        }
      }
    }
    CollectedEnd(line, i, stop, lo, afterEnd, strictAfter, seg, pendingAnsiBefore, afterStarted);
  }

  lemma {:induction false} StartedIsAfter(line: Line, i: nat, beforeEnd: nat, afterStart: nat, afterEnd: int,
      strict: bool, seg: Segments, pending: Line, started: bool)
    requires i <= |line| && started
      && Collected(line, i, beforeEnd, afterStart, afterEnd, strict, seg, pending, started)
    ensures Width(line[..i]) >= afterStart && Width(line[..i]) >= beforeEnd
  {
    hide Cells, StyleAfter, Pick, Width;
  }

  lemma {:induction false} TrackStart(line: Line)
    ensures StyleAfter(line[..0], CLEAR) == CLEAR && Good(CLEAR)
  {
    assert line[..0] == [];
  }

  lemma {:induction false} TrackItem(line: Line, i: nat)
    requires i < |line| && WellFormed(line) && Good(StyleAfter(line[..i], CLEAR))
    ensures StyleAfter(line[..i + 1], CLEAR) == After(line[i], StyleAfter(line[..i], CLEAR))
    ensures Good(StyleAfter(line[..i + 1], CLEAR))
  {
    hide Process, Cells, Good, Width, CodeLength;
    assert line[..i + 1] == line[..i] + [line[i]];
    Concat(line[..i], [line[i]], CLEAR);
    Single(line[i], StyleAfter(line[..i], CLEAR));
    TrackStart(line);
    StyleGood(line[..i + 1], CLEAR);
  }

  // ----- Splicing

  const SPACE := Grapheme(" ", 1)

  function Spaces(n: nat): Line { seq(n, _ => Glyph(SPACE)) }
  function Blank(s: Style): Cell { Cell(SPACE, s) }

  lemma {:induction false} SpacesShow(n: nat, s: Style)
    ensures Cells(Spaces(n), s) == Repeat(Blank(s), n) && StyleAfter(Spaces(n), s) == s && Width(Spaces(n)) == n
    ensures Columns(Repeat(Blank(s), n)) == Repeat(Blank(s), n)
    decreases n
  {
    hide Process;
    if n > 0 {
      assert Spaces(n)[1..] == Spaces(n - 1) && Repeat(Blank(s), n)[1..] == Repeat(Blank(s), n - 1);
      SpacesShow(n - 1, s);
      assert [Blank(s)] + Repeat(Blank(s), n - 1) == Repeat(Blank(s), n);
      assert Repeat(Blank(s), 1) == [Blank(s)];
    }
  }

  const SEGMENT_RESET: Line := [Code("\U{1B}[0m"), Code("\U{1B}]8;;\U{7}")]

  lemma {:induction false} ZeroText()
    ensures ToDecimal(0) == "0"
  {
  }

  /** The reset between segments brings any style back to clear. */
  lemma {:induction false} ResetClears(s: Style)
    ensures StyleAfter(SEGMENT_RESET, s) == CLEAR && OnlyCodes(SEGMENT_RESET)
  {
    hide Process;
    assert CodeText(0) == "\U{1B}[0m" by { ZeroText(); }
    OneApplies(s, 0);
    assert FormatClose(true) == "\U{1B}]8;;\U{7}" && ApplyCode(s, 0) == ResetSgr(s);
    CloseEnds(ResetSgr(s), true);
    assert SEGMENT_RESET[1..] == [SEGMENT_RESET[1]];
    Single(SEGMENT_RESET[1], ResetSgr(s));
  }

  /** A segment, spaces, and a reset: the cells of the segment and blanks in its last style. */
  lemma {:induction false} SegmentCells(a: Line, pad: nat)
    ensures var t := a + Spaces(pad) + SEGMENT_RESET;
      && Cells(t, CLEAR) == Cells(a, CLEAR) + Repeat(Blank(StyleAfter(a, CLEAR)), pad)
      && StyleAfter(t, CLEAR) == CLEAR && Width(t) == Width(a) + pad
  {
    hide Process, Cells, StyleAfter, Width;
    var s := StyleAfter(a, CLEAR);
    Concat(a, Spaces(pad), CLEAR);
    SpacesShow(pad, s);
    Concat(a + Spaces(pad), SEGMENT_RESET, CLEAR);
    ResetClears(s);
    CodesAreInvisible(SEGMENT_RESET, s);
  }

  /** The cells of `a` followed by blanks. */
  function Padded(a: Line, pad: nat): seq<Cell> { Cells(a, CLEAR) + Repeat(Blank(StyleAfter(a, CLEAR)), pad) }

  lemma {:induction false} SpliceCells(a: Line, p: nat, b: Line, q: nat, c: Line, r: nat)
    ensures var t := (a + Spaces(p) + SEGMENT_RESET) + (b + Spaces(q) + SEGMENT_RESET) + (c + Spaces(r));
      && Cells(t, CLEAR) == Padded(a, p) + Padded(b, q) + Padded(c, r)
      && Width(t) == Width(a) + p + Width(b) + q + Width(c) + r
  {
    hide Process, Cells, StyleAfter, Width;
    SegmentCells(a, p);
    SegmentCells(b, q);
    var x, y, z := a + Spaces(p) + SEGMENT_RESET, b + Spaces(q) + SEGMENT_RESET, c + Spaces(r);
    Concat(x, y, CLEAR);
    Concat(x + y, z, CLEAR);
    Concat(c, Spaces(r), CLEAR);
    SpacesShow(r, StyleAfter(c, CLEAR));
  }

  // ----- By column

  /** No grapheme of the line, which starts at column `col`, lies on both sides of column `c`. */
  predicate Splits(line: Line, col: nat, c: nat) {
    line == [] || (!(col < c < col + WidthOf(line[0])) && Splits(line[1..], col + WidthOf(line[0]), c))
  }

  function Clamp(a: int, n: nat): nat { if a < 0 then 0 else if a > n then n else a }

  function Between(cols: seq<Cell>, a: int, b: int): seq<Cell>
    requires a <= b
  {
    cols[Clamp(a, |cols|)..Clamp(b, |cols|)]
  }

  /** The columns of one item in front of the rest, when no cut runs through it. */
  lemma {:induction false} CutStep(head: seq<Cell>, tail: seq<Cell>, picked: bool, a: int, b: int)
    requires a <= b
    requires if picked then a <= 0 && b >= |head| else a >= |head| || b <= 0 || head == []
    ensures Between(head + tail, a, b) == (if picked then head else []) + Between(tail, a - |head|, b - |head|)
  {
  }

  lemma {:induction false} PickHead(line: Line, col: nat, s: Style, lo: nat, hi: int, strict: bool)
    requires line != []
    ensures var x, w := line[0], WidthOf(line[0]);
      Columns(Pick(line, col, s, lo, hi, strict))
        == (if x.Glyph? && Picked(col, w, lo, hi, strict) then Columns(Shown(x, s)) else [])
         + Columns(Pick(line[1..], col + w, After(x, s), lo, hi, strict))
  {
    hide Process, Columns;
    var x, w := line[0], WidthOf(line[0]);
    var rest := Pick(line[1..], col + w, After(x, s), lo, hi, strict);
    ColumnsConcat(Shown(x, s), rest);
    assert [] + rest == rest && [] + Columns(rest) == Columns(rest);
  }

  /** Where neither edge cuts a grapheme, picking cells is cutting columns. */
  lemma {:induction false} PickIsCut(line: Line, col: nat, s: Style, lo: nat, hi: nat, strict: bool)
    requires lo <= hi && Splits(line, col, lo) && Splits(line, col, hi)
    ensures Columns(Pick(line, col, s, lo, hi, strict)) == Between(Columns(Cells(line, s)), lo - col, hi - col)
    decreases |line|
  {
    hide Process, Pick, Between, Columns;
    if line == [] {
      EmptyCut(col, s, lo, hi, strict);
    } else {
      var x, w := line[0], WidthOf(line[0]);
      var tail := Cells(line[1..], After(x, s));
      var head := Columns(Shown(x, s));
      PickIsCut(line[1..], col + w, After(x, s), lo, hi, strict);
      ColumnsConcat(Shown(x, s), tail);
      PickHead(line, col, s, lo, hi, strict);
      ShownColumns(x, s);
      CutStep(head, Columns(tail), x.Glyph? && Picked(col, w, lo, hi, strict), lo - col, hi - col);
    }
  }

  lemma {:induction false} EmptyCut(col: nat, s: Style, lo: nat, hi: nat, strict: bool)
    requires lo <= hi
    ensures Columns(Pick([], col, s, lo, hi, strict)) == Between(Columns(Cells([], s)), lo - col, hi - col)
  {
  }

  lemma {:induction false} ShownColumns(x: Item, s: Style)
    ensures |Columns(Shown(x, s))| == WidthOf(x)
  {
    if x.Glyph? {
      var one := [Cell(x.g, s)];
      assert one[1..] == [];
    }
  }

  /** What is picked strictly is never wider than the range. */
  lemma {:induction false} PickFits(line: Line, col: nat, s: Style, lo: nat, hi: nat)
    requires lo <= hi
    ensures |Columns(Pick(line, col, s, lo, hi, true))| <= Max(0, hi - Max(lo, col))
    decreases |line|
  {
    hide Process, Pick, Columns;
    if line == [] {
      EmptyCut(col, s, lo, hi, true);
    } else {
      var w := WidthOf(line[0]);
      PickHead(line, col, s, lo, hi, true);
      ShownColumns(line[0], s);
      PickFits(line[1..], col + w, After(line[0], s), lo, hi);
    }
  }

  /** A line no wider than `c` is not cut at `c`. */
  lemma {:induction false} NarrowSplits(line: Line, col: nat, c: nat)
    requires col + Width(line) <= c
    ensures Splits(line, col, c)
    decreases |line|
  {
    if line != [] { NarrowSplits(line[1..], col + WidthOf(line[0]), c); }
  }

  // ----- Compositing

  /** The line is left alone: it holds an image in the Kitty or the iTerm2 protocol. */
  lemma {:induction false} ImageExactly(line: Line)
    ensures IsImageLine(line) <==>
      exists i, rest :: 0 <= i < |line| && line[i].Code?
        && (line[i].code == "\U{1B}_G" + rest || line[i].code == "\U{1B}]1337;File=" + rest)
  {
    if i :| 0 <= i < |line| && line[i].Code? && StartsWith(line[i].code, "\U{1B}_G") {
      assert line[i].code == "\U{1B}_G" + line[i].code[3..];
    }
    if i :| 0 <= i < |line| && line[i].Code? && StartsWith(line[i].code, "\U{1B}]1337;File=") {
      assert line[i].code == "\U{1B}]1337;File=" + line[i].code[12..];
    }
    if i, rest :| 0 <= i < |line| && line[i].Code? && line[i].code == "\U{1B}_G" + rest {
      assert line[i].code[..3] == "\U{1B}_G";
    }
    if i, rest :| 0 <= i < |line| && line[i].Code? && line[i].code == "\U{1B}]1337;File=" + rest {
      assert line[i].code[..12] == "\U{1B}]1337;File=";
    }
  }

  predicate IsImageLine(line: Line) {
    exists i :: 0 <= i < |line| && line[i].Code?
        && (StartsWith(line[i].code, "\U{1B}_G") || StartsWith(line[i].code, "\U{1B}]1337;File="))
  }

  /** A column shows what `cols` shows at `k`, or a space where `cols` has ended. */
  predicate ShowsColumn(c: Cell, cols: seq<Cell>, k: nat) {
    if k < |cols| then c == cols[k] else c.g == SPACE
  }

  /** `r` is `base` with columns `from..to` overwritten by `over`. */
  predicate Overwrites(r: seq<Cell>, base: seq<Cell>, over: seq<Cell>, from: nat, to: nat) {
    forall k :: 0 <= k < |r| ==>
        if from <= k < to then ShowsColumn(r[k], over, k - from) else ShowsColumn(r[k], base, k)
  }

  /** One stretch of the result: columns `from..to` of a line, then spaces. */
  lemma {:induction false} PaddedShows(part: Line, pad: nat, cols: seq<Cell>, from: nat, to: nat, k: nat)
    requires from <= to && Columns(Cells(part, CLEAR)) == Between(cols, from, to)
    requires k < to - from == Width(part) + pad
    ensures |Columns(Padded(part, pad))| == to - from && ShowsColumn(Columns(Padded(part, pad))[k], cols, from + k)
  {
    hide Process, Cells, StyleAfter, Width, Columns;
    var s := StyleAfter(part, CLEAR);
    ColumnsConcat(Cells(part, CLEAR), Repeat(Blank(s), pad));
    SpacesShow(pad, s);
    ColumnsWidth(part, CLEAR);
  }

  lemma {:induction false} StretchesOverwrite(a: seq<Cell>, b: seq<Cell>, c: seq<Cell>, base: seq<Cell>,
      over: seq<Cell>, from: nat, to: nat)
    requires |a| == from <= to == |a + b|
    requires forall k :: 0 <= k < |a| ==> ShowsColumn(a[k], base, k)
    requires forall k :: 0 <= k < |b| ==> ShowsColumn(b[k], over, k)
    requires forall k :: 0 <= k < |c| ==> ShowsColumn(c[k], base, to + k)
    ensures Overwrites(a + b + c, base, over, from, to)
  {
    hide ShowsColumn;
    var r := a + b + c;
    forall k | 0 <= k < |r|
      ensures if from <= k < to then ShowsColumn(r[k], over, k - from) else ShowsColumn(r[k], base, k)
    {
      if k >= to { assert r[k] == c[k - to]; }
    }
  }

  lemma {:induction false} SplicedWidths(base: Line, seg: Segments, startCol: nat, afterStart: nat, totalWidth: nat)
    requires startCol <= afterStart <= totalWidth && Splits(base, 0, startCol)
    requires Cells(seg.before, CLEAR) == Pick(base, 0, CLEAR, 0, startCol, false)
    requires Cells(seg.after, CLEAR) == Pick(base, 0, CLEAR, afterStart, totalWidth, true)
    ensures Width(seg.before) <= startCol && Width(seg.after) <= totalWidth - afterStart
  {
    hide Process, Pick, Cells, Width, Columns;
    AlwaysSplitsAtZero(base, 0);
    PickIsCut(base, 0, CLEAR, 0, startCol, false);
    ColumnsWidth(seg.before, CLEAR);
    ColumnsWidth(seg.after, CLEAR);
    PickFits(base, 0, CLEAR, afterStart, totalWidth);
  }

  lemma {:induction false} AlwaysSplitsAtZero(line: Line, col: nat)
    ensures Splits(line, col, 0)
    decreases |line|
  {
    if line != [] { AlwaysSplitsAtZero(line[1..], col + WidthOf(line[0])); }
  }

  /** The spliced line shows the base with the overlay's columns overwritten. */
  lemma {:induction false} SplicedOverwrites(base: Line, over: Line, seg: Segments, mid: Line, startCol: nat,
      overlayWidth: nat, totalWidth: nat, p: nat, q: nat, r: nat)
    requires startCol + overlayWidth <= totalWidth
    requires Splits(base, 0, startCol) && Splits(base, 0, startCol + overlayWidth) && Splits(base, 0, totalWidth)
      && Splits(over, 0, overlayWidth)
    requires Cells(seg.before, CLEAR) == Pick(base, 0, CLEAR, 0, startCol, false)
    requires Cells(seg.after, CLEAR) == Pick(base, 0, CLEAR, startCol + overlayWidth, totalWidth, true)
    requires Cells(mid, CLEAR) == Pick(over, 0, CLEAR, 0, overlayWidth, true)
    requires Width(seg.before) + p == startCol && Width(mid) + q == overlayWidth
      && Width(seg.after) + r == totalWidth - startCol - overlayWidth
    ensures Overwrites(Columns(Padded(seg.before, p) + Padded(mid, q) + Padded(seg.after, r)),
                       Columns(Cells(base, CLEAR)), Columns(Cells(over, CLEAR)), startCol, startCol + overlayWidth)
  {
    hide Process, Pick, Cells, StyleAfter, Width, Columns, Between, Padded, ShowsColumn, Splits, Overwrites;
    var afterStart := startCol + overlayWidth;
    var cols, overCols := Columns(Cells(base, CLEAR)), Columns(Cells(over, CLEAR));
    AlwaysSplitsAtZero(base, 0);
    AlwaysSplitsAtZero(over, 0);
    PickIsCut(base, 0, CLEAR, 0, startCol, false);
    PickIsCut(base, 0, CLEAR, afterStart, totalWidth, true);
    PickIsCut(over, 0, CLEAR, 0, overlayWidth, true);
    var a, b, c := Columns(Padded(seg.before, p)), Columns(Padded(mid, q)), Columns(Padded(seg.after, r));
    StretchShows(seg.before, p, cols, 0, startCol);
    StretchShows(mid, q, overCols, 0, overlayWidth);
    StretchShows(seg.after, r, cols, afterStart, totalWidth);
    StretchesOverwrite(a, b, c, cols, overCols, startCol, afterStart);
    ColumnsConcat(Padded(seg.before, p), Padded(mid, q));
    ColumnsConcat(Padded(seg.before, p) + Padded(mid, q), Padded(seg.after, r));
  }

  lemma {:induction false} StretchShows(part: Line, pad: nat, cols: seq<Cell>, from: nat, to: nat)
    requires from <= to && Columns(Cells(part, CLEAR)) == Between(cols, from, to)
    requires to - from == Width(part) + pad
    ensures var r := Columns(Padded(part, pad));
      |r| == to - from && forall k :: 0 <= k < |r| ==> ShowsColumn(r[k], cols, from + k)
  {
    hide Process, Cells, StyleAfter, Width, Columns, Between, Padded, ShowsColumn;
    PaddedLength(part, pad);
    forall k | 0 <= k < to - from
      ensures ShowsColumn(Columns(Padded(part, pad))[k], cols, from + k)
    {
      PaddedShows(part, pad, cols, from, to, k);
    }
  }

  lemma {:induction false} PaddedLength(part: Line, pad: nat)
    ensures |Columns(Padded(part, pad))| == Width(part) + pad
  {
    hide Process, Cells, StyleAfter, Width, Columns;
    var s := StyleAfter(part, CLEAR);
    ColumnsConcat(Cells(part, CLEAR), Repeat(Blank(s), pad));
    SpacesShow(pad, s);
    ColumnsWidth(part, CLEAR);
  }

  // ----- The spliced line, before it is cut to the terminal

  predicate AllBlank(cells: seq<Cell>) { forall i :: 0 <= i < |cells| ==> cells[i].g == SPACE }

  /** The cells of the base that start left of the overlay, those of the overlay that lie inside its width,
      and those of the base that lie between it and the end of the terminal; each filled up with spaces. */
  ghost predicate IsSplice(cells: seq<Cell>, base: Line, over: Line, startCol: nat, overlayWidth: nat,
      totalWidth: nat)
  {
    exists a, b, c :: SplicesBy(cells, base, over, startCol, overlayWidth, totalWidth, a, b, c)
  }

  /** The same with the spaces given: `a` left of the overlay, `b` inside it, `c` right of it. */
  ghost predicate SplicesBy(cells: seq<Cell>, base: Line, over: Line, startCol: nat, overlayWidth: nat,
      totalWidth: nat, a: seq<Cell>, b: seq<Cell>, c: seq<Cell>)
  {
    var left := Pick(base, 0, CLEAR, 0, startCol, false);
    var mid := Pick(over, 0, CLEAR, 0, overlayWidth, true);
    var right := Pick(base, 0, CLEAR, startCol + overlayWidth, totalWidth, true);
    && AllBlank(a) && AllBlank(b) && AllBlank(c)
    && |a| == Max(0, startCol - |Columns(left)|)
    && |b| == Max(0, overlayWidth - |Columns(mid)|)
    && |c| == Max(0, totalWidth - Max(startCol, |Columns(left)|) - overlayWidth - |Columns(right)|)
    && cells == (left + a) + (mid + b) + (right + c)
  }

  /** `r` is the line if it fits, and otherwise its cells that lie inside the terminal. */
  ghost predicate IsCut(r: Line, line: Line, totalWidth: nat) {
    if Width(line) <= totalWidth then r == line
    else Cells(r, CLEAR) == Pick(line, 0, CLEAR, 0, totalWidth, true)
  }

  lemma {:induction false} PaddedSplices(base: Line, over: Line, startCol: nat, overlayWidth: nat, totalWidth: nat,
      left: Line, p: nat, mid: Line, q: nat, right: Line, r: nat)
    requires Cells(left, CLEAR) == Pick(base, 0, CLEAR, 0, startCol, false) && p == Max(0, startCol - Width(left))
    requires Cells(mid, CLEAR) == Pick(over, 0, CLEAR, 0, overlayWidth, true)
    requires q == Max(0, overlayWidth - Width(mid))
    requires Cells(right, CLEAR) == Pick(base, 0, CLEAR, startCol + overlayWidth, totalWidth, true)
    requires r == Max(0, totalWidth - Max(startCol, Width(left)) - overlayWidth - Width(right))
    ensures
      IsSplice(Padded(left, p) + Padded(mid, q) + Padded(right, r), base, over, startCol, overlayWidth, totalWidth)
  {
    hide Process, Pick, Cells, StyleAfter, Width, Columns;
    ColumnsWidth(left, CLEAR);
    ColumnsWidth(mid, CLEAR);
    ColumnsWidth(right, CLEAR);
    var a, b, c := Repeat(Blank(StyleAfter(left, CLEAR)), p), Repeat(Blank(StyleAfter(mid, CLEAR)), q),
        Repeat(Blank(StyleAfter(right, CLEAR)), r);
    assert SplicesBy(Padded(left, p) + Padded(mid, q) + Padded(right, r), base, over, startCol, overlayWidth,
        totalWidth, a, b, c);
  }

  /** What is cut off is the end, so that what a line shows in its columns stays. */
  lemma {:induction false} CutOverwrites(r: Line, line: Line, totalWidth: nat, base: seq<Cell>, over: seq<Cell>,
      from: nat, to: nat)
    requires IsCut(r, line, totalWidth) && Overwrites(Columns(Cells(line, CLEAR)), base, over, from, to)
    ensures Overwrites(Columns(Cells(r, CLEAR)), base, over, from, to)
  {
    hide Process, Pick, Cells, StyleAfter, Width, ShowsColumn, StartColumn;
    if Width(line) > totalWidth {
      var cells := Cells(line, CLEAR);
      var i, j := PickIsRange(line, 0, CLEAR, 0, totalWidth, true);
      NothingSkipped(cells, 0, 0, totalWidth, true, i, j);
      var n := if i == j then 0 else j;
      assert Cells(r, CLEAR) == cells[..n] && cells == cells[..n] + cells[n..];
      ColumnsConcat(cells[..n], cells[n..]);
      var whole, part := Columns(cells), Columns(cells[..n]);
      assert forall k :: 0 <= k < |part| ==> part[k] == whole[k];
    }
  }

  /** The base is not cut by the edges of the overlay and, right of it, of the terminal, nor the overlay by
      its own width. */
  predicate CleanEdges(base: Line, over: Line, startCol: nat, overlayWidth: nat, totalWidth: nat) {
    && Splits(base, 0, startCol) && Splits(base, 0, startCol + overlayWidth) && Splits(over, 0, overlayWidth)
    && (startCol + overlayWidth <= totalWidth ==> Splits(base, 0, totalWidth))
  }

  /** Splices an overlay line into a base line. The result never exceeds the terminal: it is the cells of
      the splice, cut there if need be. It fills the terminal exactly when the overlay fits and its left
      edge cuts no grapheme; and where no edge cuts one it is the base with the overlay's columns
      overwritten, also when the overlay reaches past the terminal. */
  method CompositeLineAt(base: Line, over: Line, startCol: nat, overlayWidth: nat, totalWidth: nat) returns (r: Line)
    requires WellFormed(base)
    ensures IsImageLine(base) ==> r == base
    ensures !IsImageLine(base) ==> Width(r) <= totalWidth
    ensures !IsImageLine(base) ==> exists line ::
      IsSplice(Cells(line, CLEAR), base, over, startCol, overlayWidth, totalWidth) && IsCut(r, line, totalWidth)
    ensures !IsImageLine(base) && startCol + overlayWidth <= totalWidth && Splits(base, 0, startCol) ==>
      Width(r) == totalWidth
    ensures !IsImageLine(base) && CleanEdges(base, over, startCol, overlayWidth, totalWidth) ==>
      Overwrites(Columns(Cells(r, CLEAR)), Columns(Cells(base, CLEAR)), Columns(Cells(over, CLEAR)), startCol,
          startCol + overlayWidth)
  {
    hide Process, Pick, Cells, StyleAfter, Width, Columns, Padded, Splits, Overwrites, WellFormed, SliceCells,
      IsSplice;
    if IsImageLine(base) { return base; }
    var afterStart := startCol + overlayWidth;
    var seg := ExtractSegments(base, startCol, afterStart, totalWidth - afterStart, true);
    var mid, midWidth := SliceWithWidth(over, 0, overlayWidth, true);
    var beforePad := Max(0, startCol - seg.beforeWidth);
    var overlayPad := Max(0, overlayWidth - midWidth);
    var actualBeforeWidth, actualOverlayWidth := Max(startCol, seg.beforeWidth), Max(overlayWidth, midWidth);
    var afterTarget := Max(0, totalWidth - actualBeforeWidth - actualOverlayWidth);
    var afterPad := Max(0, afterTarget - seg.afterWidth);
    SliceFromStart(over, overlayWidth, true);
    SpliceCells(seg.before, beforePad, mid, overlayPad, seg.after, afterPad);
    var line := (seg.before + Spaces(beforePad) + SEGMENT_RESET) + (mid + Spaces(overlayPad) + SEGMENT_RESET)
                + (seg.after + Spaces(afterPad));
    PaddedSplices(base, over, startCol, overlayWidth, totalWidth, seg.before, beforePad, mid, overlayPad, seg.after,
        afterPad);
    SplicedLine(base, over, seg, mid, startCol, overlayWidth, totalWidth, beforePad, overlayPad, afterPad);
    r := line;
    if Width(line) > totalWidth {
      var w;
      r, w := SliceWithWidth(line, 0, totalWidth, true);
      SliceFromStart(line, totalWidth, true);
    }
    if CleanEdges(base, over, startCol, overlayWidth, totalWidth) {
      CutOverwrites(r, line, totalWidth, Columns(Cells(base, CLEAR)), Columns(Cells(over, CLEAR)), startCol,
          afterStart);
    }
  }

  /** How wide the spliced line is, and what it shows by column. */
  lemma {:induction false} SplicedLine(base: Line, over: Line, seg: Segments, mid: Line, startCol: nat,
      overlayWidth: nat, totalWidth: nat, p: nat, q: nat, r: nat)
    requires Cells(seg.before, CLEAR) == Pick(base, 0, CLEAR, 0, startCol, false)
    requires Cells(seg.after, CLEAR) == Pick(base, 0, CLEAR, startCol + overlayWidth, totalWidth, true)
    requires Cells(mid, CLEAR) == Pick(over, 0, CLEAR, 0, overlayWidth, true) && Width(mid) <= overlayWidth
    requires p == Max(0, startCol - Width(seg.before)) && q == overlayWidth - Width(mid)
    requires r == Max(0, totalWidth - Max(startCol, Width(seg.before)) - overlayWidth - Width(seg.after))
    ensures startCol + overlayWidth <= totalWidth && Splits(base, 0, startCol) ==>
      Width(seg.before) + p + Width(mid) + q + Width(seg.after) + r == totalWidth
    ensures CleanEdges(base, over, startCol, overlayWidth, totalWidth) ==>
      Overwrites(Columns(Padded(seg.before, p) + Padded(mid, q) + Padded(seg.after, r)),
                 Columns(Cells(base, CLEAR)), Columns(Cells(over, CLEAR)), startCol, startCol + overlayWidth)
  {
    hide Process, Pick, Cells, StyleAfter, Width, Columns, Padded, Splits, Overwrites;
    var afterStart := startCol + overlayWidth;
    if afterStart <= totalWidth && Splits(base, 0, startCol) {
      SplicedWidths(base, seg, startCol, afterStart, totalWidth);
      if CleanEdges(base, over, startCol, overlayWidth, totalWidth) {
        SplicedOverwrites(base, over, seg, mid, startCol, overlayWidth, totalWidth, p, q, r);
      }
    } else if CleanEdges(base, over, startCol, overlayWidth, totalWidth) {
      // Nothing of the base is left right of the overlay.
      PickEmptyRange(base, 0, CLEAR, afterStart, totalWidth, true);
      PickEmptyRange(base, 0, CLEAR, afterStart, afterStart, true);
      SplicedWidths(base, seg, startCol, afterStart, afterStart);
      SplicedOverwrites(base, over, seg, mid, startCol, overlayWidth, afterStart, p, q, r);
    }
  }
}
