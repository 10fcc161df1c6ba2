/** A terminal as the renderer sees it: every row ever pushed into scrollback followed by the rows of
    the screen, a cursor, and the Kitty images that are alive. */
module Terminal {
  import opened Basics

  /** One styled character cell. */
  type Cell = nat
  const BLANK: Cell := 0
  type Row = seq<Cell>

  /** A rendered line is a sequence of items, so equality of lines is equality of the strings sent.
      `Image(0)` is an image without an id. */
  datatype Item = Glyph(cell: Cell) | Code(text: string) | Marker | Image(id: nat)
  type Line = seq<Item>

  datatype Op =
    | Up(n: nat)            // CUU, section 8.3.22 of ECMA-48
    | Down(n: nat)          // CUD, section 8.3.19
    | Column(col: nat)      // CHA, section 8.3.9, zero based
    | CarriageReturn
    | LineFeed
    | EraseLine             // EL 2, section 8.3.41
    | EraseScreen           // ED 2, section 8.3.39
    | EraseScrollback       // xterm's ED 3
    | Home
    | Draw(item: Item)
    | DeleteImage(id: nat)

  /** `rows[..top]` is scrollback, `rows[top..]` the screen; `cy` counts from the oldest row.
      `cx == width` is the pending-wrap position after a full row. */
  datatype Term = Term(rows: seq<Row>, top: nat, cy: nat, cx: nat, width: nat, height: nat, images: set<nat>) {
    ghost predicate Valid() {
      && width >= 1 && height >= 1
      && |rows| == top + height
      && top <= cy < top + height
      && cx <= width
    }
  }

  function Blanks(n: nat): (rows: seq<Row>) {
    seq(n, _ => [])
  }

  function Feed(t: Term): Term {
    if t.cy + 1 < t.top + t.height then t.(cy := t.cy + 1)
    else t.(rows := t.rows + [[]], top := t.top + 1, cy := t.cy + 1)
  }

  function PutCell(row: Row, cx: nat, c: Cell): Row {
    if cx < |row| then row[cx := c] else row + seq(cx - |row|, _ => BLANK) + [c]
  }

  /** Writes one cell; a cell written past the last column wraps to the next row first. */
  function Put(t: Term, c: Cell): Term
    requires t.Valid()
  {
    var u := if t.cx == t.width then Feed(t).(cx := 0) else t;
    u.(rows := u.rows[u.cy := PutCell(u.rows[u.cy], u.cx, c)], cx := u.cx + 1)
  }

  function Apply(t: Term, op: Op): (u: Term)
    requires t.Valid()
    ensures u.Valid() && u.width == t.width && u.height == t.height
  {
    var col := if t.cx < t.width then t.cx else t.width - 1;
    match op
    case Up(n) => t.(cy := if t.top + n <= t.cy then t.cy - n else t.top, cx := col)
    case Down(n) => t.(cy := if t.cy + n < t.top + t.height then t.cy + n else t.top + t.height - 1, cx := col)
    case Column(c) => t.(cx := if c < t.width then c else t.width - 1)
    case CarriageReturn => t.(cx := 0)
    case LineFeed => Feed(t)
    case EraseLine => t.(rows := t.rows[t.cy := []])
    case EraseScreen => t.(rows := t.rows[..t.top] + Blanks(t.height))
    case EraseScrollback => t.(rows := t.rows[t.top..], top := 0, cy := t.cy - t.top)
    case Home => t.(cy := t.top, cx := 0)
    case Draw(Glyph(c)) => Put(t, c)
    case Draw(Image(id)) => if id == 0 then t else t.(images := t.images + {id})
    case Draw(_) => t
    case DeleteImage(id) => t.(images := t.images - {id})
  }

  function Run(t: Term, ops: seq<Op>): (u: Term)
    requires t.Valid()
    ensures u.Valid() && u.width == t.width && u.height == t.height
    decreases |ops|
  {
    if ops == [] then t else Run(Apply(t, ops[0]), ops[1..])
  }

  lemma {:induction false} RunConcat(t: Term, a: seq<Op>, b: seq<Op>)
    requires t.Valid()
    ensures Run(t, a + b) == Run(Run(t, a), b)
    decreases |a|
  {
    if a == [] {
      assert a + b == b;
    } else {
      assert (a + b)[0] == a[0] && (a + b)[1..] == a[1..] + b;
      RunConcat(Apply(t, a[0]), a[1..], b);
    }
  }

  function Cells(line: Line): Row {
    if line == [] then [] else
      (match line[0] case Glyph(c) => [c] case _ => []) + Cells(line[1..])
  }

  function ImagesOf(line: Line): set<nat> {
    set i | i in line && i.Image? && i.id != 0 :: i.id
  }

  function DrawLine(line: Line): seq<Op> {
    seq(|line|, i requires 0 <= i < |line| => Draw(line[i]))
  }

  /** Drawing a line at the end of what the row already holds appends its cells and nothing else. */
  lemma {:induction false} DrawAppends(t: Term, line: Line)
    requires t.Valid() && |t.rows[t.cy]| == t.cx && t.cx + |Cells(line)| <= t.width
    ensures var u := Run(t, DrawLine(line));
      && u.rows == t.rows[t.cy := t.rows[t.cy] + Cells(line)]
      && u.top == t.top && u.cy == t.cy && u.cx == t.cx + |Cells(line)|
    decreases |line|
  {
    if line == [] {
      assert t.rows[t.cy] + [] == t.rows[t.cy];
    } else {
      assert DrawLine(line)[1..] == DrawLine(line[1..]);
      var u := Apply(t, Draw(line[0]));
      assert u.rows[u.cy] + Cells(line[1..]) == t.rows[t.cy] + Cells(line);
      DrawAppends(u, line[1..]);
    }
  }

  const NEWLINE: seq<Op> := [CarriageReturn, LineFeed]

  /** Lines written one below the other, each row erased first when `erase` is set. */
  function Paint(lines: seq<Line>, erase: bool): seq<Op>
    decreases |lines|
  {
    if lines == [] then [] else
      var k := |lines| - 1;
      Paint(lines[..k], erase) + (if k > 0 then NEWLINE else [])
      + ((if erase then [EraseLine] else []) + DrawLine(lines[k]))
  }

  ghost predicate Fits(lines: seq<Line>, width: nat) {
    forall i :: 0 <= i < |lines| ==> |Cells(lines[i])| <= width
  }

  /** What row `j` holds once `lines` have been painted from row `y` on. */
  function RowAfter(rows: seq<Row>, y: nat, lines: seq<Line>, j: nat): Row {
    if y <= j < y + |lines| then Cells(lines[j - y]) else if j < |rows| then rows[j] else []
  }

  /** `u` is `t` with `lines` painted from its cursor row, scrolled just far enough. */
  ghost predicate Painted(t: Term, lines: seq<Line>, u: Term) {
    && lines != [] && u.Valid() && u.width == t.width && u.height == t.height
    && u.cy == t.cy + |lines| - 1
    && u.top == Max(t.top, u.cy - t.height + 1)
    && (forall j :: 0 <= j < |u.rows| ==> u.rows[j] == RowAfter(t.rows, t.cy, lines, j))
  }

  lemma {:induction false} RunOne(t: Term, op: Op)
    requires t.Valid()
    ensures Run(t, [op]) == Apply(t, op)
  {
    assert Run(t, [op]) == Run(Apply(t, op), [op][1..]);
  }

  lemma {:induction false} RunTwo(t: Term, a: Op, b: Op)
    requires t.Valid()
    ensures Run(t, [a, b]) == Apply(Apply(t, a), b)
  {
    RunOne(Apply(t, a), b);
    assert [a, b][1..] == [b];
  }

  lemma {:induction false} RunThree(t: Term, a: Op, b: Op, c: Op)
    requires t.Valid()
    ensures Run(t, [a, b, c]) == Apply(Apply(Apply(t, a), b), c)
  {
    RunTwo(Apply(t, a), b, c);
    assert [a, b, c][1..] == [b, c];
  }

  lemma {:induction false} PaintLast(t: Term, line: Line, erase: bool)
    requires t.Valid() && t.cx == 0 && |Cells(line)| <= t.width && (erase || t.rows[t.cy] == [])
    ensures var u := Run(t, (if erase then [EraseLine] else []) + DrawLine(line));
      u.rows == t.rows[t.cy := Cells(line)] && u.top == t.top && u.cy == t.cy
  {
    var e := if erase then [EraseLine] else [];
    RunConcat(t, e, DrawLine(line));
    if erase { RunOne(t, EraseLine); }
    var v := Run(t, e);
    DrawAppends(v, line);
    assert v.rows[v.cy] + Cells(line) == Cells(line);
  }

  /** After a newline the cursor sits at the start of the next row, scrolled in blank if need be. */
  lemma {:induction false} PaintNewline(t: Term, lines: seq<Line>, u: Term)
    requires t.Valid() && Painted(t, lines, u)
    ensures var v := Run(u, NEWLINE);
      && v.cy == u.cy + 1 && v.cx == 0 && v.top == Max(t.top, v.cy - t.height + 1)
      && (forall j :: 0 <= j < |v.rows| ==> v.rows[j] == RowAfter(t.rows, t.cy, lines, j))
  {
    RunTwo(u, CarriageReturn, LineFeed);
  }

  lemma {:induction false} PaintedSnoc(t: Term, lines: seq<Line>, v: Term, line: Line, erase: bool)
    requires t.Valid() && v.Valid() && v.width == t.width && v.height == t.height
    requires v.cy == t.cy + |lines| && v.cx == 0 && v.top == Max(t.top, v.cy - t.height + 1)
    requires forall j :: 0 <= j < |v.rows| ==> v.rows[j] == RowAfter(t.rows, t.cy, lines, j)
    requires |Cells(line)| <= t.width
    requires erase || forall j :: t.cy <= j < |t.rows| ==> t.rows[j] == []
    ensures Painted(t, lines + [line], Run(v, (if erase then [EraseLine] else []) + DrawLine(line)))
  {
    PaintLast(v, line, erase);
    var u := Run(v, (if erase then [EraseLine] else []) + DrawLine(line));
    forall j | 0 <= j < |u.rows|
      ensures u.rows[j] == RowAfter(t.rows, t.cy, lines + [line], j)
    {
      assert v.rows[j] == RowAfter(t.rows, t.cy, lines, j);
    }
  }

  /** Painting is painting all lines but the last, going to the next row, and drawing the last. */
  lemma {:induction false} PaintRun(t: Term, lines: seq<Line>, erase: bool)
    requires t.Valid() && lines != []
    ensures var k := |lines| - 1; var last := (if erase then [EraseLine] else []) + DrawLine(lines[k]);
      Run(t, Paint(lines, erase))
        == Run(Run(Run(t, Paint(lines[..k], erase)), if k > 0 then NEWLINE else []), last)
  {
    hide Run, DrawLine;
    var k := |lines| - 1;
    var sep: seq<Op> := if k > 0 then NEWLINE else [];
    RunConcat(t, Paint(lines[..k], erase) + sep, (if erase then [EraseLine] else []) + DrawLine(lines[k]));
    RunConcat(t, Paint(lines[..k], erase), sep);
  }

  lemma {:induction false} NothingPainted(t: Term, erase: bool)
    requires t.Valid()
    ensures Run(Run(t, Paint([], erase)), []) == t
    ensures forall j :: 0 <= j < |t.rows| ==> t.rows[j] == RowAfter(t.rows, t.cy, [], j)
  {
  }

  /** Painting puts line `k` in the `k`th row below the cursor and leaves every other row alone. */
  lemma {:induction false} PaintPaints(t: Term, lines: seq<Line>, erase: bool)
    requires t.Valid() && t.cx == 0 && lines != [] && Fits(lines, t.width)
    requires erase || forall j :: t.cy <= j < |t.rows| ==> t.rows[j] == []
    ensures Painted(t, lines, Run(t, Paint(lines, erase)))
    decreases |lines|
  {
    hide Run, Paint, Cells, DrawLine, RowAfter;
    var k := |lines| - 1;
    var init := lines[..k];
    assert lines == init + [lines[k]];
    PaintRun(t, lines, erase);
    if k > 0 {
      PaintPaints(t, init, erase);
      PaintNewline(t, init, Run(t, Paint(init, erase)));
    } else {
      assert init == [];
      NothingPainted(t, erase);
    }
    PaintedSnoc(t, init, Run(Run(t, Paint(init, erase)), if k > 0 then NEWLINE else []), lines[k], erase);
  }
}
