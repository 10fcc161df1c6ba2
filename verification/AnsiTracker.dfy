/** The style tracker as an object, proved to compute the style model. */
module AnsiTracker {
  import opened Basics
  import opened Strings
  import opened AnsiStyle

  class AnsiCodeTracker {
    /** The attributes, colours and hyperlink that are active. */
    var style: Style

    function State(): Style
      reads this
    {
      style
    }

    constructor ()
      ensures State() == CLEAR
    {
      style := CLEAR;
    }

    method Reset()
      modifies this
      ensures State() == ResetSgr(old(State()))
    {
      var link := style.link;
      style := CLEAR.(link := link);
    }

    method Clear()
      modifies this
      ensures State() == CLEAR
    {
      Reset();
      style := style.(link := Option.None);
    }

    /** One standard SGR code. */
    method Apply(code: nat)
      modifies this
      ensures State() == ApplyCode(old(State()), code)
    {
      hide ToDecimal;
      var s := style;
      match code {
        case 0 => s := CLEAR.(link := s.link);
        case 1 => s := s.(bold := true);
        case 2 => s := s.(dim := true);
        case 3 => s := s.(italic := true);
        case 4 => s := s.(underline := true);
        case 5 => s := s.(blink := true);
        case 7 => s := s.(inverse := true);
        case 8 => s := s.(hidden := true);
        case 9 => s := s.(strikethrough := true);
        case 21 => s := s.(bold := false);
        case 22 => s := s.(bold := false, dim := false);
        case 23 => s := s.(italic := false);
        case 24 => s := s.(underline := false);
        case 25 => s := s.(blink := false);
        case 27 => s := s.(inverse := false);
        case 28 => s := s.(hidden := false);
        case 29 => s := s.(strikethrough := false);
        case 39 => s := s.(fg := Option.None);
        case 49 => s := s.(bg := Option.None);
        case _ =>
          if IsFgCode(code) {
            s := s.(fg := Some(ToDecimal(code)));
          } else if IsBgCode(code) {
            s := s.(bg := Some(ToDecimal(code)));
          }
      }
      style := s;
    }

    method SetColorOf(base: nat, color: string)
      modifies this
      ensures State() == SetColor(old(State()), base, color)
    {
      if base == 38 {
        style := style.(fg := Some(color));
      } else {
        style := style.(bg := Some(color));
      }
    }

    method ProcessParts(parts: seq<string>)
      modifies this
      ensures State() == ApplyParts(old(State()), parts)
    {
      hide ApplyCode, SetColor, ParseInt, Join;
      var i := 0;
      while i < |parts|
        invariant 0 <= i <= |parts|
        invariant ApplyParts(old(State()), parts) == ApplyParts(State(), parts[i..])
      {
        var rest := parts[i..];
        var code := ParseInt(rest[0]);
        var n := ColorLength(rest);
        if (code == Some(38) || code == Some(48)) && n > 0 {
          assert rest[n..] == parts[i + n..];
          SetColorOf(code.value, Join(rest[..n], ';'));
          i := i + n;
        } else {
          assert rest[1..] == parts[i + 1..];
          if code.Some? {
            Apply(code.value);
          }
          i := i + 1;
        }
      }
      assert parts[i..] == [];
    }

    method Process(code: string)
      modifies this
      ensures State() == AnsiStyle.Process(old(State()), code)
    {
      hide ApplyParts, SgrParams, ParseOsc8;
      var hyperlink := ParseOsc8(code);
      match hyperlink {
        case Close => style := style.(link := Option.None);
        case Open(link) => style := style.(link := Some(link));
        case NotALink =>
          if EndsWith(code, "m") {
            var params := SgrParams(code, 0);
            if params.Some? {
              if params.value == "" || params.value == "0" {
                Reset();
              } else {
                ProcessParts(Split(params.value, ';'));
              }
            }
          }
      }
    }

    /** Feeds every code found in a text. */
    method UpdateFromText(text: string)
      modifies this
      ensures State() == ProcessText(old(State()), text)
    {
      hide AnsiStyle.Process, CodeLength;
      var i := 0;
      while i < |text|
        invariant 0 <= i <= |text|
        invariant ProcessText(old(State()), text) == ProcessText(State(), text[i..])
      {
        var rest := text[i..];
        var n := CodeLength(rest);
        if n > 0 {
          assert rest[n..] == text[i + n..];
          Process(rest[..n]);
          i := i + n;
        } else {
          assert rest[1..] == text[i + 1..];
          i := i + 1;
        }
      }
      assert text[i..] == "";
    }
  }
}
