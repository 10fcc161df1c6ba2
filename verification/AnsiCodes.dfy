/** What single codes mean, attribute by attribute, and how codes in one sequence add up. */
module AnsiCodes {
  import opened Basics
  import opened Strings
  import opened AnsiStyle
  import opened AnsiRoundTrip

  lemma {:induction false} LeadsUnique(s: Style, n: nat, r: Style, r': Style)
    requires Leads(s, n, r) && Leads(s, n, r')
    ensures r == r'
  {
    hide ToDecimal, ParseInt;
  }

  /** `off` is the code that takes back `on`. */
  predicate TakesBack(on: nat, off: nat) {
    || off == 0
    || (on == 1 && (off == 21 || off == 22)) || (on == 2 && off == 22)
    || (3 <= on <= 9 && on != 6 && off == on + 20)
    || (IsFgCode(on) && off == 39) || (IsBgCode(on) && off == 49)
  }

  /** Then applying both leads where applying `off` alone leads. */
  lemma {:induction false} TakenBack(s: Style, on: nat, off: nat, t: Style, u: Style)
    requires TakesBack(on, off) && Leads(s, on, t) && Leads(t, off, u)
    ensures Leads(s, off, u)
  {
    hide ToDecimal, ParseInt;
  }

  /** One code, as text. */
  function CodeText(n: nat): string { "\U{1B}[" + ToDecimal(n) + "m" }

  function ApplyAll(s: Style, ns: seq<nat>): Style
    decreases |ns|
  {
    if ns == [] then s else ApplyAll(ApplyCode(s, ns[0]), ns[1..])
  }

  function Decimals(ns: seq<nat>): seq<string> { seq(|ns|, i requires 0 <= i < |ns| => ToDecimal(ns[i])) }

  lemma {:induction false} DecimalsRead(s: Style, ns: seq<nat>)
    requires forall i :: 0 <= i < |ns| ==> ns[i] != 38 && ns[i] != 48
    ensures ApplyParts(s, Parts(Decimals(ns))) == ApplyAll(s, ns)
    decreases |ns|
  {
    hide ApplyParts, Parts, ApplyCode, ToDecimal;
    if ns == [] {
      assert Decimals(ns) == [];
      NoParts(s);
    } else {
      assert Decimals(ns) == Flag(true, ToDecimal(ns[0])) + Decimals(ns[1..]);
      FlagStep(s, true, ToDecimal(ns[0]), ns[0], Decimals(ns[1..]));
      DecimalsRead(ApplyCode(s, ns[0]), ns[1..]);
    }
  }

  lemma {:induction false} DecimalsAreParams(ns: seq<nat>)
    ensures forall c :: c in Join(Decimals(ns), ';') ==> IsParam(c)
  {
    hide Join, ToDecimal;
    forall i | 0 <= i < |ns| ensures forall c :: c in Decimals(ns)[i] ==> IsParam(c) { DigitsAreParams(ns[i]); }
    JoinParams(Decimals(ns));
  }

  lemma {:induction false} DigitsAreParams(n: nat)
    ensures forall c :: c in ToDecimal(n) ==> IsParam(c)
  {
    hide ParseInt;
    forall c | c in ToDecimal(n) ensures IsParam(c) {
      var i :| 0 <= i < |ToDecimal(n)| && ToDecimal(n)[i] == c;
    }
  }

  /** The joined decimals are a reset only when there is just the number 0. */
  lemma {:induction false} JoinedZero(ns: seq<nat>)
    requires ns != []
    ensures var p := Join(Decimals(ns), ';'); p != "" && (p == "0" ==> ns == [0])
  {
    hide ToDecimal;
    var d := Decimals(ns);
    if |ns| == 1 {
      assert d == [ToDecimal(ns[0])];
      if d[0] == "0" {
        ZeroRead();
        assert ns == [ns[0]];
      }
    } else {
      var p := d[0] + [';'] + Join(d[1..], ';');
      assert p == Join(d, ';') && d[0] != "" && |p| >= 2;
    }
  }

  lemma {:induction false} ZeroRead()
    ensures ParseInt("0") == Some(0)
  {
    assert "0"[..0] == "";
  }

  /** The codes of one sequence are applied in order; those that open an extended colour are told below. */
  lemma {:induction false} SequenceApplies(s: Style, ns: seq<nat>)
    requires ns != [] && forall i :: 0 <= i < |ns| ==> ns[i] != 38 && ns[i] != 48
    ensures Process(s, "\U{1B}[" + Join(Decimals(ns), ';') + "m") == ApplyAll(s, ns)
  {
    hide Join, Parts, ApplyParts, ToDecimal, CodeLength, ParseOsc8, SgrParams, Decimals, ApplyAll;
    var params := Join(Decimals(ns), ';');
    DecimalsAreParams(ns);
    SgrRead(params, "");
    JoinedZero(ns);
    if params == "0" {
      ZeroResets(s);
    } else {
      DecimalsNone(ns);
      SplitJoin(Decimals(ns));
      DecimalsRead(s, ns);
    }
  }

  lemma {:induction false} DecimalsNone(ns: seq<nat>)
    ensures |Decimals(ns)| == |ns|
  {
  }

  lemma {:induction false} ZeroResets(s: Style)
    ensures ApplyAll(s, [0]) == ResetSgr(s)
  {
    assert [0][1..] == [] && ApplyAll(ResetSgr(s), []) == ResetSgr(s);
  }

  lemma {:induction false} OneApplies(s: Style, n: nat)
    requires n != 38 && n != 48
    ensures Process(s, CodeText(n)) == ApplyCode(s, n)
  {
    hide Process, ToDecimal, ApplyCode;
    SequenceApplies(s, [n]);
    assert Decimals([n]) == [ToDecimal(n)] && [n][1..] == [];
    assert ApplyAll(ApplyCode(s, n), []) == ApplyCode(s, n);
    JoinOne(ToDecimal(n));
  }

  lemma {:induction false} JoinOne(a: string)
    ensures Join([a], ';') == a
  {
  }

  /** An off code after its on code gives what the off code alone gives. */
  lemma {:induction false} OffUndoesOn(s: Style, on: nat, off: nat)
    requires TakesBack(on, off) && on != 38 && on != 48
    ensures Process(Process(s, CodeText(on)), CodeText(off)) == Process(s, CodeText(off))
    ensures Leads(s, on, Process(s, CodeText(on))) && Leads(s, off, Process(s, CodeText(off)))
  {
    hide Process, ApplyCode, ToDecimal, CodeText, Leads, TakesBack;
    OneApplies(s, on);
    NoOpener(on, off);
    OneApplies(s, off);
    OneApplies(ApplyCode(s, on), off);
    TakenBack(s, on, off, ApplyCode(s, on), ApplyCode(ApplyCode(s, on), off));
    LeadsUnique(s, off, ApplyCode(s, off), ApplyCode(ApplyCode(s, on), off));
  }

  lemma {:induction false} NoOpener(on: nat, off: nat)
    requires TakesBack(on, off)
    ensures off != 38 && off != 48
  {
  }

  /** `38;5;n`, `38;2;r;g;b` and the same with 48 set one colour to the parameters as they stand. */
  lemma {:induction false} ExtendedColour(s: Style, base: nat, parts: seq<string>)
    requires (base == 38 || base == 48) && ColorParts(parts, base)
    ensures var c := Join(parts, ';');
      Process(s, "\U{1B}[" + c + "m") == if base == 38 then s.(fg := Some(c)) else s.(bg := Some(c))
  {
    hide Join, Parts, ApplyParts, ToDecimal, CodeLength, ParseOsc8, SgrParams, ColorParts;
    var c := Join(parts, ';');
    assert GoodColor(c, base);
    ColorParams(c, base);
    SgrRead(c, "");
    ExtendedColorStep(s, parts, base, []);
    NoParts(SetColor(s, base, c));
    assert [c] + [] == [c];
    JoinOne(c);
    SplitJoin([c]);
  }

  /** A link is closed by the code printed for it, with either terminator. */
  lemma {:induction false} CloseEnds(s: Style, bell: bool)
    ensures Process(s, FormatClose(bell)) == s.(link := None)
  {
    hide StartsWith, EndsWith, IndexOf;
    FormatShape(";", bell);
    assert FormatClose(bell) == OSC8 + ";" + Terminator(bell);
    SemicolonAt("", "");
    assert "" + ";" + "" == ";" && ";"[1..] == "";
    ParsedBody(FormatClose(bell), ";", bell);
  }

  /** And underline by the code written at the end of a line. */
  lemma {:induction false} UnderlineEnds(s: Style)
    ensures Process(s, "\U{1B}[24m") == s.(underline := false)
  {
    hide Process, ApplyCode;
    assert CodeText(24) == "\U{1B}[24m" by { TwentyFour(); }
    OneApplies(s, 24);
    hide CodeText;
    LeadsUnique(s, 24, ApplyCode(s, 24), s.(underline := false));
  }

  lemma {:induction false} TwentyFour()
    ensures ToDecimal(24) == "24"
  {
    hide ParseInt;
    assert ToDecimal(2) == "2";
  }
}
