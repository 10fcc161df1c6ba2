/** Printing the active style and reading it back gives the same style. */
module AnsiRoundTrip {
  import opened Basics
  import opened Strings
  import opened AnsiStyle

  // ----- The styles codes can lead to

  /** Parameters of an extended colour: `base;5;n` or `base;2;r;g;b`. */
  predicate ColorParts(parts: seq<string>, base: nat) {
    && ((|parts| == 3 && parts[1] == "5") || (|parts| == 5 && parts[1] == "2"))
    && ParseInt(parts[0]) == Some(base)
    && forall i :: 0 <= i < |parts| ==> Digits(parts[i])
  }

  predicate PlainColor(n: nat, base: nat) { if base == 38 then IsFgCode(n) else IsBgCode(n) }

  ghost predicate GoodColor(c: string, base: nat) {
    || (exists n :: PlainColor(n, base) && c == ToDecimal(n))
    || (exists parts :: ColorParts(parts, base) && c == Join(parts, ';'))
  }

  ghost predicate GoodLink(l: Link) {
    ';' !in l.params && l.url != "" && StringEnd(FormatOsc8(l), 2) == |FormatOsc8(l)|
  }

  ghost predicate Good(s: Style) {
    && (s.fg.Some? ==> GoodColor(s.fg.value, 38))
    && (s.bg.Some? ==> GoodColor(s.bg.value, 48))
    && (s.link.Some? ==> GoodLink(s.link.value))
  }

  lemma {:induction false} DigitsNoSemicolon(s: string)
    requires Digits(s)
    ensures ';' !in s
  {
  }

  lemma {:induction false} PlainGood(n: nat, base: nat)
    requires PlainColor(n, base)
    ensures GoodColor(ToDecimal(n), base)
  {
    hide ToDecimal, ParseInt, Join, ColorParts;
  }

  lemma {:induction false} GoodApply(s: Style, n: nat)
    requires Good(s)
    ensures Good(ApplyCode(s, n))
  {
    hide ToDecimal, GoodColor, GoodLink, ApplyCode, ParseInt;
    if IsFgCode(n) { PlainGood(n, 38); }
    if IsBgCode(n) { PlainGood(n, 48); }
  }

  lemma {:induction false} GoodSet(s: Style, base: nat, parts: seq<string>)
    requires Good(s) && (base == 38 || base == 48) && ColorParts(parts, base)
    ensures Good(SetColor(s, base, Join(parts, ';')))
  {
    hide Join, ColorParts, GoodLink, ToDecimal, ParseInt;
  }

  lemma {:induction false} GoodParts(s: Style, parts: seq<string>)
    requires Good(s) && forall i :: 0 <= i < |parts| ==> Digits(parts[i])
    ensures Good(ApplyParts(s, parts))
    decreases |parts|
  {
    hide Join, ApplyCode, Good, SetColor, ParseInt;
    if parts != [] {
      var code := ParseInt(parts[0]);
      var n := ColorLength(parts);
      if (code == Some(38) || code == Some(48)) && n > 0 {
        GoodSet(s, code.value, parts[..n]);
        GoodParts(SetColor(s, code.value, Join(parts[..n], ';')), parts[n..]);
      } else {
        if code.Some? { GoodApply(s, code.value); }
        GoodParts(if code.Some? then ApplyCode(s, code.value) else s, parts[1..]);
      }
    }
  }

  lemma {:induction false} GoodSgr(s: Style, params: string)
    requires Good(s) && forall k :: 0 <= k < |params| ==> IsParam(params[k])
    ensures Good(ApplySgr(s, params))
  {
    SplitParts(params, ';');
    var parts := Split(params, ';');
    forall i | 0 <= i < |parts| ensures Digits(parts[i]) {
      forall k | 0 <= k < |parts[i]| ensures IsDigit(parts[i][k]) {
        assert parts[i][k] in parts[i];
      }
    }
    GoodParts(s, parts);
  }

  // ----- Links

  /** A string code that ends where the text ends closes with BEL or ST. */
  lemma {:induction false} StringCloses(s: string, j: nat)
    requires StringEnd(s, j) == |s| > j
    ensures EndsWith(s, [BEL]) || EndsWith(s, ST)
    decreases |s| - j
  {
    if s[j] == BEL {
      assert s[|s| - 1..] == [BEL];
    } else if s[j] == ESC && j + 1 < |s| && s[j + 1] == '\\' {
      assert s[|s| - 2..] == ST;
    } else {
      StringCloses(s, j + 1);
    }
  }

  lemma {:induction false} CodeIsString(code: string)
    requires StartsWith(code, OSC8) && CodeLength(code) == |code|
    ensures StringEnd(code, 2) == StringEnd(code, 4) == |code| > 4
  {
    assert code[..4] == OSC8 && code[0] == ESC && code[1] == ']' && code[2] == '8' && code[3] == ';';
    assert StringEnd(code, 2) == StringEnd(code, 3) == StringEnd(code, 4);
    StringEndBound(code, 4);
  }

  lemma {:induction false} SplitAtSemicolon(body: string)
    ensures var sep := IndexOf(body, ";");
      sep != -1 ==> 0 <= sep < |body| && body == body[..sep] + ";" + body[sep + 1..] && ';' !in body[..sep]
  {
    var sep := IndexOf(body, ";");
    if sep != -1 {
      assert body[sep..sep + 1] == ";" && body[sep] == ';';
      forall i | 0 <= i < sep ensures body[i] != ';' {
        assert !OccursAt(body, ";", i);
        assert body[i..i + 1] == [body[i]];
      }
    }
  }

  lemma {:induction false} SemicolonAt(a: string, b: string)
    requires ';' !in a
    ensures IndexOf(a + ";" + b, ";") == |a|
  {
    var body := a + ";" + b;
    forall k | 0 <= k < |a| ensures !OccursAt(body, ";", k) {
      assert body[k..k + 1][0] == a[k];
    }
    assert body[|a|..|a| + 1] == ";";
    IndexOfIs(body, ";", |a|);
  }

  /** Parsing a link and printing it again gives back the code. */
  lemma {:induction false} ParseFormat(code: string)
    requires StartsWith(code, OSC8) && CodeLength(code) == |code| && ParseOsc8(code).Open?
    ensures FormatOsc8(ParseOsc8(code).link) == code
    ensures ';' !in ParseOsc8(code).link.params && ParseOsc8(code).link.url != ""
  {
    hide StringEnd, CodeLength, IndexOf, StartsWith, EndsWith, FormatOsc8, Terminator, ParseOsc8;
    var bell := EndsWith(code, [BEL]);
    CodeShape(code, bell);
    var body := code[4..|code| - (if bell then 1 else 2)];
    ParsedBody(code, body, bell);
    SplitAtSemicolon(body);
    LinkBody(ParseOsc8(code).link);
  }

  /** A link code is read from its body. */
  lemma {:induction false} ParsedBody(code: string, body: string, bell: bool)
    requires StartsWith(code, OSC8) && bell == EndsWith(code, [BEL])
    requires var end := |code| - (if bell then 1 else 2); 4 <= end && body == code[4..end]
    ensures var sep := IndexOf(body, ";");
      ParseOsc8(code) == if sep == -1 then NotALink
                         else if body[sep + 1..] == "" then Close
                         else Open(Link(body[..sep], body[sep + 1..], bell))
  {
    hide StartsWith, EndsWith;
  }

  lemma {:induction false} ParsedLinkGood(code: string)
    requires StartsWith(code, OSC8) && CodeLength(code) == |code| && ParseOsc8(code).Open?
    ensures GoodLink(ParseOsc8(code).link)
  {
    hide StringEnd, CodeLength, ParseOsc8;
    ParseFormat(code);
    CodeIsString(code);
  }

  lemma {:induction false} CodeShape(code: string, bell: bool)
    requires StartsWith(code, OSC8) && CodeLength(code) == |code| && bell == EndsWith(code, [BEL])
    ensures var end := |code| - (if bell then 1 else 2);
      4 <= end && code == OSC8 + code[4..end] + Terminator(bell)
  {
    hide StringEnd, CodeLength;
    CodeIsString(code);
    StringCloses(code, 4);
    var end := |code| - (if bell then 1 else 2);
    TailAfterFour(code, end, bell);
  }

  lemma {:induction false} TailAfterFour(code: string, end: int, bell: bool)
    requires StartsWith(code, OSC8) && |code| > 4 && end == |code| - (if bell then 1 else 2)
    requires 0 <= end && code[end..] == Terminator(bell)
    ensures end >= 4
  {
    assert code[..4][3] == ';' && code[3] == ';';
    assert !bell ==> code[end..][0] == code[end];
  }

  /** Where the parts of a printed link are. */
  lemma {:induction false} FormatShape(body: string, bell: bool)
    ensures var code := OSC8 + body + Terminator(bell);
      && StartsWith(code, OSC8) && EndsWith(code, [BEL]) == bell
      && code[4..|code| - (if bell then 1 else 2)] == body
  {
    var code := OSC8 + body + Terminator(bell);
    assert code[..4] == OSC8;
    assert code[|code| - 1..] == [if bell then BEL else '\\'];
  }

  lemma {:induction false} BodyParts(params: string, url: string)
    ensures var body := params + ";" + url; body[..|params|] == params && body[|params| + 1..] == url
  {
  }

  /** Printing a link and parsing it again gives back the link. */
  lemma {:induction false} FormatParse(l: Link)
    requires ';' !in l.params && l.url != ""
    ensures ParseOsc8(FormatOsc8(l)) == Open(l)
  {
    hide IndexOf, StartsWith, EndsWith;
    var body := l.params + ";" + l.url;
    LinkBody(l);
    FormatShape(body, l.bell);
    SemicolonAt(l.params, l.url);
    BodyParts(l.params, l.url);
  }

  lemma {:induction false} LinkBody(l: Link)
    ensures FormatOsc8(l) == OSC8 + (l.params + ";" + l.url) + Terminator(l.bell)
  {
  }

  /** Every code keeps the style printable. */
  lemma {:induction false} GoodProcess(s: Style, code: string)
    requires Good(s) && CodeLength(code) == |code|
    ensures Good(Process(s, code))
  {
    hide CodeLength, ApplySgr, GoodColor, GoodLink, IndexOf, FormatOsc8;
    match ParseOsc8(code)
    case Open(link) => ParsedLinkGood(code);
    case Close =>
    case NotALink =>
      if SgrParams(code, 0).Some? { GoodSgr(s, SgrParams(code, 0).value); }
  }

  // ----- Reading the printed parameters

  /** All parameters of a list of codes. */
  function Parts(codes: seq<string>): seq<string> {
    if codes == [] then [] else Split(codes[0], ';') + Parts(codes[1..])
  }

  lemma {:induction false} SplitJoin(codes: seq<string>)
    requires codes != []
    ensures Split(Join(codes, ';'), ';') == Parts(codes)
  {
    if |codes| == 1 {
      assert Parts(codes[1..]) == [];
    } else {
      SplitConcat(codes[0], ';', Join(codes[1..], ';'));
      SplitJoin(codes[1..]);
    }
  }

  lemma {:induction false} PartsOfParts(parts: seq<string>)
    requires forall i :: 0 <= i < |parts| ==> ';' !in parts[i]
    ensures Parts(parts) == parts
  {
    if parts != [] {
      SplitWhole(parts[0], ';');
      PartsOfParts(parts[1..]);
    }
  }

  lemma {:induction false} FlagStep(s: Style, on: bool, code: string, n: nat, rest: seq<string>)
    requires code == ToDecimal(n) && n != 38 && n != 48
    ensures ApplyParts(s, Parts(Flag(on, code) + rest)) == ApplyParts(if on then ApplyCode(s, n) else s, Parts(rest))
  {
    if on {
      assert ([code] + rest)[1..] == rest;
      DigitsNoSemicolon(code);
      SplitWhole(code, ';');
      assert ([code] + Parts(rest))[1..] == Parts(rest);
    } else {
      assert [] + rest == rest;
    }
  }

  lemma {:induction false} ColorStep(s: Style, c: Option<string>, base: nat, rest: seq<string>)
    requires (base == 38 || base == 48) && (c.Some? ==> GoodColor(c.value, base))
    ensures ApplyParts(s, Parts(Color(c) + rest))
         == ApplyParts(if c.Some? then SetColor(s, base, c.value) else s, Parts(rest))
  {
    hide ToDecimal, ParseInt, Join, Parts, ApplyParts, ColorParts;
    if c.None? {
      assert [] + rest == rest;
    } else if exists n :: PlainColor(n, base) && c.value == ToDecimal(n) {
      var n :| PlainColor(n, base) && c.value == ToDecimal(n);
      PlainColorStep(s, n, base, rest);
    } else {
      var parts :| ColorParts(parts, base) && c.value == Join(parts, ';');
      ExtendedColorStep(s, parts, base, rest);
    }
  }

  lemma {:induction false} PlainColorStep(s: Style, n: nat, base: nat, rest: seq<string>)
    requires (base == 38 || base == 48) && PlainColor(n, base)
    ensures ApplyParts(s, Parts([ToDecimal(n)] + rest)) == ApplyParts(SetColor(s, base, ToDecimal(n)), Parts(rest))
  {
    hide ToDecimal, ParseInt, Parts, ApplyParts;
    FlagStep(s, true, ToDecimal(n), n, rest);
  }

  lemma {:induction false} ExtendedColorStep(s: Style, parts: seq<string>, base: nat, rest: seq<string>)
    requires (base == 38 || base == 48) && ColorParts(parts, base)
    ensures var c := Join(parts, ';');
      c != "" && ApplyParts(s, Parts([c] + rest)) == ApplyParts(SetColor(s, base, c), Parts(rest))
  {
    var c := Join(parts, ';');
    forall i | 0 <= i < |parts| ensures ';' !in parts[i] { DigitsNoSemicolon(parts[i]); }
    SplitJoin(parts);
    PartsOfParts(parts);
    assert ([c] + rest)[1..] == rest;
    var all := parts + Parts(rest);
    assert Parts([c] + rest) == all;
    assert all[0] == parts[0] && all[1] == parts[1];
    assert all[..|parts|] == parts && all[|parts|..] == Parts(rest);
    assert ColorLength(all) == |parts|;
  }

  // ----- The printed code as text

  lemma {:induction false} JoinParams(codes: seq<string>)
    requires forall i :: 0 <= i < |codes| ==> forall c :: c in codes[i] ==> IsParam(c)
    ensures forall c :: c in Join(codes, ';') ==> IsParam(c)
  {
    if |codes| > 1 {
      JoinParams(codes[1..]);
      assert Join(codes, ';') == codes[0] + [';'] + Join(codes[1..], ';');
    }
  }

  /** A CSI code made of parameters only is found whole and its parameters are read back. */
  lemma {:induction false} SgrRead(params: string, rest: string)
    requires forall c :: c in params ==> IsParam(c)
    ensures var code := "\U{1B}[" + params + "m";
      && CodeLength(code + rest) == |code| && (code + rest)[..|code|] == code && (code + rest)[|code|..] == rest
      && SgrParams(code, 0) == Some(params) && EndsWith(code, "m") && ParseOsc8(code) == NotALink
  {
    hide ParamsEnd, CsiEnd, StringEnd;
    var code := "\U{1B}[" + params + "m";
    var s := code + rest;
    assert s[0] == ESC && s[1] == '[' && code[0] == ESC && code[1] == '[';
    assert s[..|code|] == code && s[|code|..] == rest;
    SgrEnds(params, rest);
    assert code[2..|code| - 1] == params;
    assert code[|code| - 1..] == "m";
    assert |code| >= 4 ==> code[..4][1] == code[1];
  }

  lemma {:induction false} SgrEnds(params: string, rest: string)
    requires forall c :: c in params ==> IsParam(c)
    ensures var code := "\U{1B}[" + params + "m";
      CsiEnd(code + rest, 2) == |code| - 1 && ParamsEnd(code, 2) == |code| - 1
  {
    var code := "\U{1B}[" + params + "m";
    var s := code + rest;
    assert forall k :: 2 <= k < |code| - 1 ==> s[k] == params[k - 2] && s[k] in params;
    assert s[|code| - 1] == 'm';
    assert forall k :: 2 <= k < |code| - 1 ==> code[k] == params[k - 2];
  }

  lemma {:induction false} SmallDecimals()
    ensures ToDecimal(1) == "1" && ToDecimal(2) == "2" && ToDecimal(3) == "3" && ToDecimal(4) == "4"
    ensures ToDecimal(5) == "5" && ToDecimal(7) == "7" && ToDecimal(8) == "8" && ToDecimal(9) == "9"
  {
    hide ParseInt;
  }

  function FirstFlags(s: Style, rest: seq<string>): seq<string> {
    Flag(s.bold, "1") + (Flag(s.dim, "2") + (Flag(s.italic, "3") + (Flag(s.underline, "4") + rest)))
  }

  function LastFlags(s: Style, rest: seq<string>): seq<string> {
    Flag(s.blink, "5") + (Flag(s.inverse, "7") + (Flag(s.hidden, "8") + (Flag(s.strikethrough, "9") + rest)))
  }

  /** Reading the flags of a printed style sets them one by one. */
  lemma {:induction false} FirstFlagsRead(s: Style, rest: seq<string>)
    ensures ApplyParts(CLEAR, Parts(FirstFlags(s, rest)))
         == ApplyParts(CLEAR.(bold := s.bold, dim := s.dim, italic := s.italic, underline := s.underline), Parts(rest))
  {
    hide ApplyParts, Parts, ToDecimal, ParseInt, Flag;
    SmallDecimals();
    var r4 := Flag(s.underline, "4") + rest;
    var r3 := Flag(s.italic, "3") + r4;
    FlagStep(CLEAR, s.bold, "1", 1, Flag(s.dim, "2") + r3);
    var s1 := CLEAR.(bold := s.bold);
    FlagStep(s1, s.dim, "2", 2, r3);
    var s2 := s1.(dim := s.dim);
    FlagStep(s2, s.italic, "3", 3, r4);
    var s3 := s2.(italic := s.italic);
    FlagStep(s3, s.underline, "4", 4, rest);
  }

  lemma {:induction false} LastFlagsRead(s: Style, t: Style, rest: seq<string>)
    requires !t.blink && !t.inverse && !t.hidden && !t.strikethrough
    ensures ApplyParts(t, Parts(LastFlags(s, rest)))
         == ApplyParts(t.(blink := s.blink, inverse := s.inverse, hidden := s.hidden, strikethrough := s.strikethrough),
             Parts(rest))
  {
    hide ApplyParts, Parts, ToDecimal, ParseInt, Flag;
    SmallDecimals();
    var r9 := Flag(s.strikethrough, "9") + rest;
    var r8 := Flag(s.hidden, "8") + r9;
    FlagStep(t, s.blink, "5", 5, Flag(s.inverse, "7") + r8);
    var s5 := t.(blink := s.blink);
    FlagStep(s5, s.inverse, "7", 7, r8);
    var s7 := s5.(inverse := s.inverse);
    FlagStep(s7, s.hidden, "8", 8, r9);
    var s8 := s7.(hidden := s.hidden);
    FlagStep(s8, s.strikethrough, "9", 9, rest);
  }

  lemma {:induction false} ColourSet(s: Style, c: Option<string>, base: nat)
    requires (base == 38 && s.fg.None?) || (base == 48 && s.bg.None?)
    ensures (if c.Some? then SetColor(s, base, c.value) else s) == if base == 38 then s.(fg := c) else s.(bg := c)
  {
  }

  lemma {:induction false} ColorsRead(s: Style, t: Style)
    requires Good(s) && t == s.(fg := None, bg := None, link := None)
    ensures ApplyParts(t, Parts(Color(s.fg) + Color(s.bg))) == s.(link := None)
  {
    hide ToDecimal, ParseInt, GoodColor, GoodLink, Color, ApplyParts, Parts, SetColor;
    ColorStep(t, s.fg, 38, Color(s.bg));
    var u := t.(fg := s.fg);
    ColourSet(t, s.fg, 38);
    ColorStep(u, s.bg, 48, []);
    ColourSet(u, s.bg, 48);
    assert Color(s.bg) + [] == Color(s.bg);
    NoParts(s.(link := None));
  }

  lemma {:induction false} CodesRead(s: Style)
    requires Good(s)
    ensures ApplyParts(CLEAR, Parts(SgrCodes(s))) == s.(link := None)
  {
    hide Good, ApplyParts, Parts, Color, Flag;
    var colors := Color(s.fg) + Color(s.bg);
    assert SgrCodes(s) == FirstFlags(s, LastFlags(s, colors));
    FirstFlagsRead(s, LastFlags(s, colors));
    LastFlagsRead(s, CLEAR.(bold := s.bold, dim := s.dim, italic := s.italic, underline := s.underline), colors);
    ColorsRead(s, s.(fg := None, bg := None, link := None));
  }

  lemma {:induction false} ColorParams(c: string, base: nat)
    requires GoodColor(c, base)
    ensures c != "" && c != "0" && forall x :: x in c ==> IsParam(x)
  {
    if exists n :: PlainColor(n, base) && c == ToDecimal(n) {
      var n :| PlainColor(n, base) && c == ToDecimal(n);
      assert ParseInt("0") == Some(0);
    } else {
      var parts :| ColorParts(parts, base) && c == Join(parts, ';');
      assert c == parts[0] + [';'] + Join(parts[1..], ';');
      assert forall i :: 0 <= i < |parts| ==> forall x :: x in parts[i] ==> IsParam(x);
      JoinParams(parts);
    }
  }

  /** The printed parameters are parameters and are not those of a reset. */
  lemma {:induction false} CodesAreParams(s: Style)
    requires Good(s) && SgrCodes(s) != []
    ensures var p := Join(SgrCodes(s), ';'); p != "" && p != "0" && forall c :: c in p ==> IsParam(c)
  {
    hide GoodColor, GoodLink, SgrCodes;
    if s.fg.Some? { ColorParams(s.fg.value, 38); }
    if s.bg.Some? { ColorParams(s.bg.value, 48); }
    var codes := SgrCodes(s);
    CodeMembers(s);
    forall i | 0 <= i < |codes| ensures codes[i] != "" && codes[i] != "0" && forall c :: c in codes[i] ==> IsParam(c) {
      assert codes[i] in codes;
    }
    JoinParams(codes);
    if |codes| > 1 {
      var p := codes[0] + [';'] + Join(codes[1..], ';');
      assert p[|codes[0]|] == ';';
    }
  }

  /** The text is made of parameters and is not that of a reset. */
  predicate IsParamText(c: string) { c != "" && c != "0" && forall x :: x in c ==> IsParam(x) }

  lemma {:induction false} CodeMembers(s: Style)
    requires s.fg.Some? ==> IsParamText(s.fg.value)
    requires s.bg.Some? ==> IsParamText(s.bg.value)
    ensures forall c :: c in SgrCodes(s) ==> IsParamText(c)
  {
    FlagTexts();
    hide IsParamText;
    forall c | c in SgrCodes(s) ensures IsParamText(c) {
      assert c in ["1", "2", "3", "4", "5", "7", "8", "9"] || c in Color(s.fg) || c in Color(s.bg);
    }
  }

  lemma {:induction false} FlagTexts()
    ensures forall c :: c in ["1", "2", "3", "4", "5", "7", "8", "9"] ==> IsParamText(c)
  {
  }

  /** Reading a printed SGR code sets everything but the link. */
  lemma {:induction false} SgrProcessed(s: Style, rest: string)
    requires Good(s)
    ensures SgrCodes(s) == [] ==> s.(link := None) == CLEAR
    ensures SgrCodes(s) != [] ==>
      var code := SgrText(s);
      Process(CLEAR, code) == s.(link := None) && CodeLength(code + rest) == |code| > 0
      && (code + rest)[..|code|] == code && (code + rest)[|code|..] == rest
  {
    hide GoodColor, GoodLink, CodeLength, ParseOsc8, SgrParams, Parts, ApplyParts, SgrCodes, Join;
    CodesRead(s);
    if SgrCodes(s) == [] {
      NoParts(CLEAR);
    } else {
      CodesAreParams(s);
      SgrRead(Join(SgrCodes(s), ';'), rest);
      SplitJoin(SgrCodes(s));
    }
  }

  lemma {:induction false} SgrRoundTrip(s: Style, rest: string)
    requires Good(s)
    ensures ProcessText(CLEAR, SgrText(s) + rest) == ProcessText(s.(link := None), rest)
  {
    hide Good, CodeLength, Process, SgrCodes;
    SgrProcessed(s, rest);
    if SgrCodes(s) == [] {
      assert "" + rest == rest;
    }
  }

  lemma {:induction false} NoParts(s: Style)
    ensures ApplyParts(s, Parts([])) == s
  {
  }

  lemma {:induction false} LinkRoundTrip(s: Style, l: Link)
    requires GoodLink(l)
    ensures ProcessText(s, FormatOsc8(l)) == s.(link := Some(l)) == Process(s, FormatOsc8(l))
    ensures CodeLength(FormatOsc8(l)) == |FormatOsc8(l)|
  {
    hide StringEnd, ParseOsc8;
    FormatParse(l);
    var code := FormatOsc8(l);
    assert code[0] == ESC && code[1] == ']';
    assert CodeLength(code) == |code|;
    assert code[..|code|] == code && code[|code|..] == "";
  }

  /** Print/parse round trip: whatever codes led to a style, printing the active codes and reading the
      printed text from a clear style leads to the same style. */
  lemma {:induction false} RoundTrip(s: Style)
    requires Good(s)
    ensures ProcessText(CLEAR, ActiveCodes(s)) == s
  {
    hide GoodColor, GoodLink, SgrText, FormatOsc8;
    SgrRoundTrip(s, LinkText(s));
    if s.link.Some? {
      LinkRoundTrip(s.(link := None), s.link.value);
    }
  }

  /** Every style that a run of codes can lead to is one the round trip holds for. */
  lemma {:induction false} ReachableGood(codes: seq<string>, s: Style)
    requires Good(s) && forall i :: 0 <= i < |codes| ==> CodeLength(codes[i]) == |codes[i]|
    ensures Good(ProcessAll(s, codes)) && ProcessText(CLEAR, ActiveCodes(ProcessAll(s, codes))) == ProcessAll(s, codes)
    decreases |codes|
  {
    hide GoodColor, GoodLink, ActiveCodes, CodeLength, Process, ProcessText;
    if codes == [] {
      RoundTrip(s);
    } else {
      GoodProcess(s, codes[0]);
      ReachableGood(codes[1..], Process(s, codes[0]));
    }
  }

  function ProcessAll(s: Style, codes: seq<string>): Style
    decreases |codes|
  {
    if codes == [] then s else ProcessAll(Process(s, codes[0]), codes[1..])
  }
}
