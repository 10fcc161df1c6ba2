/** The style a terminal is in after a run of SGR and OSC 8 codes, as the text utilities track it. */
module AnsiStyle {
  import opened Basics
  import opened Strings

  const ESC := '\U{1B}'
  const BEL := '\U{7}'
  const ST: string := "\U{1B}\\"

  datatype Link = Link(params: string, url: string, bell: bool)

  datatype Style = Style(
    bold: bool, dim: bool, italic: bool, underline: bool, blink: bool, inverse: bool, hidden: bool,
    strikethrough: bool, fg: Option<string>, bg: Option<string>, link: Option<Link>)

  const CLEAR := Style(false, false, false, false, false, false, false, false, None, None, None)

  // ----- Finding codes in text

  /** The first index from `j` on that ends a CSI code, or -1. */
  function CsiEnd(s: string, j: nat): (r: int)
    ensures r == -1 || (j <= r < |s| && s[r] in "mGKHJ")
    ensures forall k :: j <= k < (if r == -1 then |s| else r) ==> s[k] !in "mGKHJ"
    decreases |s| - j
  {
    if j >= |s| then -1 else if s[j] in "mGKHJ" then j else CsiEnd(s, j + 1)
  }

  /** The length up to and including the BEL or ST that closes a string code, or 0. */
  function StringEnd(s: string, j: nat): nat
    decreases |s| - j
  {
    if j >= |s| then 0
    else if s[j] == BEL then j + 1
    else if s[j] == ESC && j + 1 < |s| && s[j + 1] == '\\' then j + 2
    else StringEnd(s, j + 1)
  }

  /** The length of the code at the start of `s`, or 0 when there is none. */
  function CodeLength(s: string): (n: nat)
    ensures n <= |s|
  {
    if |s| < 2 || s[0] != ESC then 0
    else if s[1] == '[' then CsiEnd(s, 2) + 1
    else if s[1] == ']' || s[1] == '_' then StringEndBound(s, 2); StringEnd(s, 2)
    else 0
  }

  lemma {:induction false} StringEndBound(s: string, j: nat)
    requires j <= |s|
    ensures StringEnd(s, j) <= |s| && (StringEnd(s, j) > 0 ==> StringEnd(s, j) > j)
    decreases |s| - j
  {
    if j < |s| && s[j] != BEL && !(s[j] == ESC && j + 1 < |s| && s[j + 1] == '\\') {
      StringEndBound(s, j + 1);
    }
  }

  // ----- OSC 8

  datatype Parsed = NotALink | Close | Open(link: Link)

  const OSC8 := "\U{1B}]8;"

  function ParseOsc8(code: string): Parsed {
    if !StartsWith(code, OSC8) then NotALink else
      var bell := EndsWith(code, [BEL]);
      var end := |code| - (if bell then 1 else 2);
      var body := if end < 4 then "" else code[4..end];
      var sep := IndexOf(body, ";");
      if sep == -1 then NotALink
      else if body[sep + 1..] == "" then Close
      else Open(Link(body[..sep], body[sep + 1..], bell))
  }

  function Terminator(bell: bool): string { if bell then [BEL] else ST }

  function FormatOsc8(link: Link): string {
    OSC8 + link.params + ";" + link.url + Terminator(link.bell)
  }

  function FormatClose(bell: bool): string { "\U{1B}]8;;" + Terminator(bell) }

  // ----- SGR

  predicate IsDigit(c: char) { '0' <= c <= '9' }
  predicate Digits(s: string) { forall i :: 0 <= i < |s| ==> IsDigit(s[i]) }

  function ParseInt(s: string): (n: Option<nat>)
    ensures s == "" <==> n.None?
  {
    if s == "" then None else
      var init := ParseInt(s[..|s| - 1]);
      var digit := if IsDigit(s[|s| - 1]) then s[|s| - 1] as int - '0' as int else 0;
      Some((if init.Some? then 10 * init.value else 0) + digit)
  }

  function ToDecimal(n: nat): (s: string)
    ensures s != "" && Digits(s) && ParseInt(s) == Some(n)
  {
    var d := ('0' as int + n % 10) as char;
    if n < 10 then
      assert [d][..0] == "";
      [d]
    else
      var s := ToDecimal(n / 10) + [d];
      assert s[..|s| - 1] == ToDecimal(n / 10);
      s
  }

  function ResetSgr(s: Style): Style { CLEAR.(link := s.link) }

  /** Codes 1 to 4 and those that take them back. */
  predicate Weighs(s: Style, n: nat, r: Style) {
    && (r.bold <==> n == 1 || (s.bold && n != 0 && n != 21 && n != 22))
    && (r.dim <==> n == 2 || (s.dim && n != 0 && n != 22))
    && (r.italic <==> n == 3 || (s.italic && n != 0 && n != 23))
    && (r.underline <==> n == 4 || (s.underline && n != 0 && n != 24))
  }

  /** Codes 5 to 9. */
  predicate Marks(s: Style, n: nat, r: Style) {
    && (r.blink <==> n == 5 || (s.blink && n != 0 && n != 25))
    && (r.inverse <==> n == 7 || (s.inverse && n != 0 && n != 27))
    && (r.hidden <==> n == 8 || (s.hidden && n != 0 && n != 28))
    && (r.strikethrough <==> n == 9 || (s.strikethrough && n != 0 && n != 29))
  }

  /** The codes of the plain colours. */
  predicate Colours(s: Style, n: nat, r: Style) {
    && r.fg == (if 30 <= n <= 37 || 90 <= n <= 97 then Some(ToDecimal(n)) else if n == 0 || n == 39 then None
                else s.fg)
    && r.bg == (if 40 <= n <= 47 || 100 <= n <= 107 then Some(ToDecimal(n)) else if n == 0 || n == 49 then None
                else s.bg)
    && r.link == s.link
  }

  /** `r` is the style that code `n` leads to from `s`, said for each attribute: what switches it on, what
      switches it off, and that nothing else touches it. 0 switches off all but the link. */
  predicate Leads(s: Style, n: nat, r: Style) { Weighs(s, n, r) && Marks(s, n, r) && Colours(s, n, r) }

  /** Attribute codes switch flags; none but a reset touches a colour. */
  function ApplyAttribute(s: Style, n: nat): (r: Style)
    ensures n < 30 ==> Leads(s, n, r)
    ensures r.link == s.link && ((r.fg == s.fg && r.bg == s.bg) || (r.fg.None? && r.bg.None?))
  {
    match n
    case 0 => ResetSgr(s)
    case 1 => s.(bold := true)
    case 2 => s.(dim := true)
    case 3 => s.(italic := true)
    case 4 => s.(underline := true)
    case 5 => s.(blink := true)
    case 7 => s.(inverse := true)
    case 8 => s.(hidden := true)
    case 9 => s.(strikethrough := true)
    case 21 => s.(bold := false)
    case 22 => s.(bold := false, dim := false)
    case 23 => s.(italic := false)
    case 24 => s.(underline := false)
    case 25 => s.(blink := false)
    case 27 => s.(inverse := false)
    case 28 => s.(hidden := false)
    case 29 => s.(strikethrough := false)
    case _ => s
  }

  function ApplyCode(s: Style, n: nat): (r: Style)
    ensures Leads(s, n, r)
    ensures r.link == s.link
    ensures r.fg == s.fg || r.fg.None? || (IsFgCode(n) && r.fg == Some(ToDecimal(n)))
    ensures r.bg == s.bg || r.bg.None? || (IsBgCode(n) && r.bg == Some(ToDecimal(n)))
  {
    if n < 30 then ApplyAttribute(s, n)
    else if n == 39 then s.(fg := None)
    else if n == 49 then s.(bg := None)
    else if IsFgCode(n) then s.(fg := Some(ToDecimal(n)))
    else if IsBgCode(n) then s.(bg := Some(ToDecimal(n)))
    else s
  }

  predicate IsFgCode(n: nat) { 30 <= n <= 37 || 90 <= n <= 97 }
  predicate IsBgCode(n: nat) { 40 <= n <= 47 || 100 <= n <= 107 }

  function SetColor(s: Style, base: nat, color: string): Style {
    if base == 38 then s.(fg := Some(color)) else s.(bg := Some(color))
  }

  /** How many parameters an extended colour at the front of `parts` takes, or 0. */
  function ColorLength(parts: seq<string>): (n: nat)
    ensures n <= |parts|
  {
    if |parts| >= 3 && parts[1] == "5" then 3 else if |parts| >= 5 && parts[1] == "2" then 5 else 0
  }

  function ApplyParts(s: Style, parts: seq<string>): Style
    decreases |parts|
  {
    if parts == [] then s else
      var code := ParseInt(parts[0]);
      var n := ColorLength(parts);
      if (code == Some(38) || code == Some(48)) && n > 0 then
        ApplyParts(SetColor(s, code.value, Join(parts[..n], ';')), parts[n..])
      else
        ApplyParts(if code.Some? then ApplyCode(s, code.value) else s, parts[1..])
  }

  predicate IsParam(c: char) { IsDigit(c) || c == ';' }

  /** The end of the run of digits and semicolons that starts at `j`. */
  function ParamsEnd(s: string, j: nat): (r: nat)
    requires j <= |s|
    ensures j <= r <= |s| && (r < |s| ==> !IsParam(s[r]))
    ensures forall k :: j <= k < r ==> IsParam(s[k])
    decreases |s| - j
  {
    if j < |s| && IsParam(s[j]) then ParamsEnd(s, j + 1) else j
  }

  /** The parameters of the first SGR code from `i` on. */
  function SgrParams(s: string, i: nat): (r: Option<string>)
    ensures r.Some? ==> forall k :: 0 <= k < |r.value| ==> IsParam(r.value[k])
    decreases |s| - i
  {
    if i + 2 > |s| then None
    else if s[i] == ESC && s[i + 1] == '[' && ParamsEnd(s, i + 2) < |s| && s[ParamsEnd(s, i + 2)] == 'm' then
      Some(s[i + 2..ParamsEnd(s, i + 2)])
    else SgrParams(s, i + 1)
  }

  function ApplySgr(s: Style, params: string): Style {
    if params == "" || params == "0" then ResetSgr(s) else ApplyParts(s, Split(params, ';'))
  }

  /** One code changes the style. */
  function Process(s: Style, code: string): Style {
    match ParseOsc8(code)
    case Close => s.(link := None)
    case Open(link) => s.(link := Some(link))
    case NotALink =>
      if !EndsWith(code, "m") then s else
        var params := SgrParams(code, 0);
        if params.None? then s else ApplySgr(s, params.value)
  }

  /** All codes in a text, in order. */
  function ProcessText(s: Style, text: string): Style
    decreases |text|
  {
    if text == "" then s else
      var n := CodeLength(text);
      if n > 0 then ProcessText(Process(s, text[..n]), text[n..]) else ProcessText(s, text[1..])
  }

  // ----- Printing a style

  function Flag(on: bool, code: string): seq<string> { if on then [code] else [] }
  function Color(c: Option<string>): seq<string> { if c.Some? && c.value != "" then [c.value] else [] }

  function SgrCodes(s: Style): seq<string> {
    Flag(s.bold, "1") + (Flag(s.dim, "2") + (Flag(s.italic, "3") + (Flag(s.underline, "4") + (Flag(s.blink, "5")
    + (Flag(s.inverse, "7") + (Flag(s.hidden, "8") + (Flag(s.strikethrough, "9") + (Color(s.fg) + Color(s.bg)))))))))
  }

  function SgrText(s: Style): string {
    if SgrCodes(s) == [] then "" else "\U{1B}[" + Join(SgrCodes(s), ';') + "m"
  }

  function LinkText(s: Style): string { if s.link.Some? then FormatOsc8(s.link.value) else "" }

  function ActiveCodes(s: Style): string { SgrText(s) + LinkText(s) }
}
