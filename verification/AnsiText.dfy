/** Styled text: lines of escape codes and graphemes, and the styled cells they stand for. */
module AnsiText {
  import opened Basics
  import opened AnsiCodes
  import opened AnsiStyle
  import opened AnsiRoundTrip

  datatype Grapheme = Grapheme(text: string, width: nat)
  datatype Item = Code(code: string) | Glyph(g: Grapheme)
  type Line = seq<Item>

  /** What the terminal shows for one grapheme. */
  datatype Cell = Cell(g: Grapheme, style: Style)

  /** Every code of the line is one that a search for codes finds whole. */
  ghost predicate WellFormed(line: Line) {
    forall i :: 0 <= i < |line| && line[i].Code? ==> CodeLength(line[i].code) == |line[i].code|
  }

  function After(item: Item, s: Style): Style {
    if item.Code? then Process(s, item.code) else s
  }

  function StyleAfter(line: Line, s: Style): Style {
    if line == [] then s else StyleAfter(line[1..], After(line[0], s))
  }

  function Shown(item: Item, s: Style): seq<Cell> {
    if item.Glyph? then [Cell(item.g, s)] else []
  }

  /** The meaning of a line that is written when the terminal's style is `s`. */
  function Cells(line: Line, s: Style): seq<Cell> {
    if line == [] then [] else Shown(line[0], s) + Cells(line[1..], After(line[0], s))
  }

  function WidthOf(item: Item): nat { if item.Glyph? then item.g.width else 0 }

  function Width(line: Line): nat {
    if line == [] then 0 else WidthOf(line[0]) + Width(line[1..])
  }

  lemma {:induction false} Concat(a: Line, b: Line, s: Style)
    ensures StyleAfter(a + b, s) == StyleAfter(b, StyleAfter(a, s))
    ensures Cells(a + b, s) == Cells(a, s) + Cells(b, StyleAfter(a, s))
    ensures Width(a + b) == Width(a) + Width(b)
    decreases |a|
  {
    hide Process;
    if a == [] {
      assert a + b == b;
    } else {
      assert (a + b)[0] == a[0] && (a + b)[1..] == a[1..] + b;
      Concat(a[1..], b, After(a[0], s));
    }
  }

  lemma {:induction false} Single(item: Item, s: Style)
    ensures StyleAfter([item], s) == After(item, s) && Cells([item], s) == Shown(item, s)
      && Width([item]) == WidthOf(item)
  {
    hide Process;
    assert [item][1..] == [];
  }

  lemma {:induction false} StyleGood(line: Line, s: Style)
    requires WellFormed(line) && Good(s)
    ensures Good(StyleAfter(line, s))
    decreases |line|
  {
    hide Process, Good, CodeLength;
    if line != [] {
      if line[0].Code? { GoodProcess(s, line[0].code); }
      StyleGood(line[1..], After(line[0], s));
    }
  }

  // ----- Codes that carry a style to the next line

  function SgrItems(s: Style): Line { if SgrCodes(s) == [] then [] else [Code(SgrText(s))] }
  function LinkItems(s: Style): Line { if s.link.Some? then [Code(FormatOsc8(s.link.value))] else [] }

  function ActiveItems(s: Style): Line { SgrItems(s) + LinkItems(s) }

  function LineEndReset(s: Style): Line {
    (if s.underline then [Code("\U{1B}[24m")] else []) + (if s.link.Some? then [Code(FormatClose(s.link.value.bell))]
    else [])
  }

  /** Nothing that would show beyond the end of a line is on: no underline and no link. */
  predicate Closed(s: Style) { !s.underline && s.link.None? }

  /** The codes at the end of a line switch off just that. */
  lemma {:induction false} ResetCloses(s: Style)
    ensures StyleAfter(LineEndReset(s), s) == s.(underline := false, link := None)
    ensures OnlyCodes(LineEndReset(s)) && (LineEndReset(s) == [] <==> Closed(s))
  {
    hide Process, Cells, FormatClose;
    var off: Line := if s.underline then [Code("\U{1B}[24m")] else [];
    var close: Line := if s.link.Some? then [Code(FormatClose(s.link.value.bell))] else [];
    var t := s.(underline := false);
    Concat(off, close, s);
    if s.underline {
      UnderlineEnds(s);
      Single(off[0], s);
    }
    if s.link.Some? {
      CloseEnds(t, s.link.value.bell);
      Single(close[0], t);
    }
  }

  predicate OnlyCodes(line: Line) {
    forall i :: 0 <= i < |line| ==> line[i].Code?
  }

  lemma {:induction false} CodesAreInvisible(line: Line, s: Style)
    requires OnlyCodes(line)
    ensures Cells(line, s) == [] && Width(line) == 0
    decreases |line|
  {
    hide Process;
    if line != [] {
      CodesAreInvisible(line[1..], After(line[0], s));
    }
  }

  lemma {:induction false} SgrItemsRestore(s: Style)
    requires Good(s)
    ensures StyleAfter(SgrItems(s), CLEAR) == s.(link := None) && WellFormed(SgrItems(s))
  {
    hide Good, CodeLength, Process, SgrCodes, SgrText;
    SgrProcessed(s, "");
    assert SgrText(s) + "" == SgrText(s);
    if SgrCodes(s) != [] { Single(Code(SgrText(s)), CLEAR); }
  }

  lemma {:induction false} LinkItemsRestore(s: Style)
    requires Good(s)
    ensures StyleAfter(LinkItems(s), s.(link := None)) == s && WellFormed(LinkItems(s))
  {
    hide CodeLength, Process, FormatOsc8, GoodColor;
    if s.link.Some? {
      GoodHasLink(s);
      LinkRoundTrip(s.(link := None), s.link.value);
      Single(Code(FormatOsc8(s.link.value)), s.(link := None));
    }
  }

  /** Writing the active codes on a clear terminal restores the style and shows nothing. */
  lemma {:induction false} ActiveRestores(s: Style)
    requires Good(s)
    ensures StyleAfter(ActiveItems(s), CLEAR) == s && OnlyCodes(ActiveItems(s)) && WellFormed(ActiveItems(s))
  {
    hide Good, CodeLength, Process, StyleAfter, Cells, SgrCodes, SgrText, FormatOsc8;
    SgrItemsRestore(s);
    LinkItemsRestore(s);
    Concat(SgrItems(s), LinkItems(s), CLEAR);
  }

  lemma {:induction false} GoodHasLink(s: Style)
    requires Good(s) && s.link.Some?
    ensures GoodLink(s.link.value)
  {
  }

  // ----- Whitespace

  predicate IsSpaceChar(c: char) {
    c == ' ' || '\t' <= c <= '\r' || c == '\U{A0}' || c == '\U{1680}' || '\U{2000}' <= c <= '\U{200A}'
    || c == '\U{2028}' || c == '\U{2029}' || c == '\U{202F}' || c == '\U{205F}' || c == '\U{3000}' || c == '\U{FEFF}'
  }

  predicate IsSpace(g: Grapheme) { forall i :: 0 <= i < |g.text| ==> IsSpaceChar(g.text[i]) }

  predicate AllSpace(cells: seq<Cell>) { forall i :: 0 <= i < |cells| ==> IsSpace(cells[i].g) }

  function TrimEnd(line: Line): Line {
    if line != [] && line[|line| - 1].Glyph? && IsSpace(line[|line| - 1].g) then TrimEnd(line[..|line| - 1]) else line
  }

  /** Trimming removes trailing whitespace cells and nothing else. */
  lemma {:induction false} TrimDrops(line: Line, s: Style) returns (off: seq<Cell>)
    ensures Cells(line, s) == Cells(TrimEnd(line), s) + off && AllSpace(off)
    ensures Width(TrimEnd(line)) <= Width(line)
    decreases |line|
  {
    hide Process, Cells, StyleAfter, Width, IsSpace;
    if line != [] && line[|line| - 1].Glyph? && IsSpace(line[|line| - 1].g) {
      var k := |line| - 1;
      var rest := TrimDrops(line[..k], s);
      assert line == line[..k] + [line[k]];
      Concat(line[..k], [line[k]], s);
      Single(line[k], StyleAfter(line[..k], s));
      off := rest + Shown(line[k], StyleAfter(line[..k], s));
      Reassociate(Cells(TrimEnd(line), s), rest, Shown(line[k], StyleAfter(line[..k], s)));
    } else {
      off := [];
      assert Cells(line, s) + [] == Cells(line, s);
    }
  }

  /** The line does not end in whitespace. */
  predicate Trimmed(line: Line) {
    line != [] && line[|line| - 1].Glyph? ==> !IsSpace(line[|line| - 1].g)
  }

  /** Trimming leaves no whitespace at the end and the style as it was. */
  lemma {:induction false} TrimTrims(line: Line, s: Style)
    ensures Trimmed(TrimEnd(line)) && StyleAfter(TrimEnd(line), s) == StyleAfter(line, s)
    decreases |line|
  {
    hide Process, Cells, StyleAfter, Width, IsSpace;
    if line != [] && line[|line| - 1].Glyph? && IsSpace(line[|line| - 1].g) {
      var k := |line| - 1;
      TrimTrims(line[..k], s);
      assert line == line[..k] + [line[k]];
      Concat(line[..k], [line[k]], s);
      Single(line[k], StyleAfter(line[..k], s));
    }
  }

  // ----- Output lines and what was dropped between them

  /** The cells of the lines, each written from a clear style, with the gap after each of them. */
  function Interleave(lines: seq<Line>, gaps: seq<seq<Cell>>): seq<Cell>
    requires |lines| == |gaps|
  {
    if lines == [] then [] else
      var k := |lines| - 1;
      Interleave(lines[..k], gaps[..k]) + (Cells(lines[k], CLEAR) + gaps[k])
  }

  predicate AllGapsSpace(gaps: seq<seq<Cell>>) {
    forall i :: 0 <= i < |gaps| ==> AllSpace(gaps[i])
  }

  /** `lines` show `cells` in order, each with its own style, except for whitespace dropped after a line. */
  predicate Rebuilds(cells: seq<Cell>, lines: seq<Line>, gaps: seq<seq<Cell>>) {
    |lines| == |gaps| && AllGapsSpace(gaps) && Interleave(lines, gaps) == cells
  }

  lemma {:induction false} Push(done: seq<Cell>, lines: seq<Line>, gaps: seq<seq<Cell>>, current: seq<Cell>,
      line: Line, gap: seq<Cell>)
    requires |lines| == |gaps| && AllGapsSpace(gaps) && AllSpace(gap)
    requires Interleave(lines, gaps) + current == done && Cells(line, CLEAR) + gap == current
    ensures Rebuilds(done, lines + [line], gaps + [gap])
  {
    hide Cells;
    assert (lines + [line])[..|lines|] == lines && (gaps + [gap])[..|gaps|] == gaps;
  }

  /** More whitespace may be dropped after the last line. */
  lemma {:induction false} WidenGap(done: seq<Cell>, lines: seq<Line>, gaps: seq<seq<Cell>>, extra: seq<Cell>)
    requires Rebuilds(done, lines, gaps) && lines != [] && AllSpace(extra)
    ensures Rebuilds(done + extra, lines, gaps[|gaps| - 1 := gaps[|gaps| - 1] + extra])
  {
    hide Cells;
    var k := |gaps| - 1;
    var wide := gaps[k := gaps[k] + extra];
    assert wide[..k] == gaps[..k];
    assert Cells(lines[k], CLEAR) + (gaps[k] + extra) == Cells(lines[k], CLEAR) + gaps[k] + extra;
  }
}
