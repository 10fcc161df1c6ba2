/** Which texts are escape sequences, by their bytes: the forms of sections 5.4 and 5.6 of ECMA-48 and
    those terminals add to them. And which events a list of tokens stands for, one by one. */
module StdinGrammar {
  import opened Basics
  import opened Strings
  import opened StdinModel
  import opened StdinProofs

  const CSI: Text := [0x1b, 0x5b]

  predicate Within(s: Text, lo: nat, hi: nat) { forall i :: 0 <= i < |s| ==> lo <= s[i] <= hi }

  /** The bytes that end a control sequence. */
  predicate Final(u: Unit) { 0x40 <= u <= 0x7e }

  predicate Number(s: Text) { s != [] && Within(s, 0x30, 0x39) }

  // ----- Complete prefixes, by position

  function MouseText(a: Text, b: Text, c: Text, f: Unit): Text {
    [0x3c] + (a + [0x3b] + (b + [0x3b] + c)) + [f]
  }

  /** `< number ; number ; number` and `M` or `m`: a mouse report in SGR form. */
  ghost predicate Mouse(t: Text) {
    exists a: Text, b: Text, c: Text, f: Unit ::
      t == MouseText(a, b, c, f) && Number(a) && Number(b) && Number(c) && (f == 0x4d || f == 0x6d)
  }

  /** A String Terminator, or its beginning half in front of `k`. */
  predicate Terminated(q: Text, k: nat)
    requires k <= |q|
  {
    k >= 4 && q[k - 2] == ESC && q[k - 1] == BACKSLASH
  }

  ghost predicate Done(q: Text, k: nat)
    requires 1 <= k <= |q|
  {
    k >= 2 &&
    if q[1] == 0x5b then
      k >= 3 && (if q[2] == 0x4d then k >= 6 else if q[2] == 0x3c then Mouse(q[2..k]) else Final(q[k - 1]))
    else if q[1] == 0x5d then k >= 3 && (q[k - 1] == BEL || Terminated(q, k))
    else if q[1] == 0x50 || q[1] == 0x5f then Terminated(q, k)
    else if q[1] == 0x4f then k >= 3
    else true
  }

  lemma {:induction false} NumberParts(a: Text, b: Text, c: Text)
    requires Number(a) && Number(b) && Number(c)
    ensures Split(a + [SEMICOLON] + (b + [SEMICOLON] + c), SEMICOLON) == [a, b, c]
  {
    SplitConcat(a, SEMICOLON, b + [SEMICOLON] + c);
    SplitConcat(b, SEMICOLON, c);
    SplitWhole(a, SEMICOLON);
    SplitWhole(b, SEMICOLON);
    SplitWhole(c, SEMICOLON);
  }

  lemma {:induction false} JoinThree(a: Text, b: Text, c: Text, sep: Unit)
    ensures Join([a, b, c], sep) == a + [sep] + (b + [sep] + c)
  {
    assert [a, b, c][1..] == [b, c] && [b, c][1..] == [c];
    assert Join([b, c], sep) == b + [sep] + c;
  }

  lemma {:induction false} MouseExactly(t: Text)
    requires t != []
    ensures t[0] == 0x3c && IsSgrMouse(t) <==> Mouse(t)
  {
    hide Split;
    if t[0] == 0x3c && IsSgrMouse(t) {
      var inner := t[1..|t| - 1];
      var p := Split(inner, SEMICOLON);
      JoinSplit(inner, SEMICOLON);
      JoinThree(p[0], p[1], p[2], SEMICOLON);
      assert p == [p[0], p[1], p[2]];
      assert t == MouseText(p[0], p[1], p[2], t[|t| - 1]);
    }
    if Mouse(t) {
      var a: Text, b: Text, c: Text, f: Unit
      :| t == MouseText(a, b, c, f) && Number(a) && Number(b) && Number(c) && (f == 0x4d || f == 0x6d);
      assert t[1..|t| - 1] == a + [SEMICOLON] + (b + [SEMICOLON] + c);
      NumberParts(a, b, c);
    }
  }

  lemma {:induction false} ControlStatus(q: Text, k: nat)
    requires 3 <= k <= |q| && q[1] == 0x5b
    ensures CsiStatus(q[..k]) == Complete
      <==> Final(q[k - 1]) && (q[2] == 0x3c ==> Mouse(q[2..k]))
  {
    hide IsSgrMouse, Mouse;
    assert q[..k][2..] == q[2..k];
    MouseExactly(q[2..k]);
  }

  lemma {:induction false} DoneExactly(q: Text, k: nat)
    requires 1 <= k <= |q| && q[0] == ESC
    ensures IsCompleteSequence(q[..k]) != Incomplete <==> Done(q, k)
  {
    hide CsiStatus, Mouse, EndsWith;
    if k >= 2 {
      var x := q[..k];
      assert x[0] == ESC && x[1] == q[1];
      if q[1] == 0x5b {
        if k >= 3 {
          assert x[2] == q[2];
          ControlStatus(q, k);
          MouseFinal(q[2..k]);
          CsiEither(x);
        } else {
          CsiShort(x);
        }
      } else {
        Ends(q, k);
      }
    }
  }

  lemma {:induction false} CsiEither(x: Text)
    requires |x| >= 2
    ensures CsiStatus(x) == Complete || CsiStatus(x) == Incomplete
  {
  }

  lemma {:induction false} CsiShort(x: Text)
    requires |x| == 2
    ensures CsiStatus(x) == Incomplete
  {
  }

  lemma {:induction false} MouseFinal(t: Text)
    ensures Mouse(t) ==> t != [] && Final(t[|t| - 1])
  {
  }

  lemma {:induction false} EndsWithOne(x: Text, u: Unit)
    requires |x| >= 1
    ensures EndsWith(x, [u]) <==> x[|x| - 1] == u
  {
    assert x[|x| - 1..] == [x[|x| - 1]];
    assert [x[|x| - 1]] == [u] <==> x[|x| - 1] == u;
  }

  lemma {:induction false} EndsWithTwo(x: Text)
    requires |x| >= 2
    ensures EndsWith(x, ST) <==> x[|x| - 2] == ESC && x[|x| - 1] == BACKSLASH
  {
    var end := x[|x| - 2..];
    assert end == [x[|x| - 2], x[|x| - 1]];
    assert end == ST <==> end[0] == ST[0] && end[1] == ST[1];
  }

  lemma {:induction false} Ends(q: Text, k: nat)
    requires 2 <= k <= |q| && q[0] == ESC && q[1] != 0x5b
    ensures q[1] != ESC && q[1] != BACKSLASH ==> (EndsWith(q[..k], ST) <==> Terminated(q, k))
    ensures EndsWith(q[..k], [BEL]) <==> q[k - 1] == BEL
  {
    hide EndsWith;
    EndsWithTwo(q[..k]);
    EndsWithOne(q[..k], BEL);
  }

  // ----- Sequences that are not complete yet

  /** The text begins a sequence and has not reached its end. */
  ghost predicate Open(q: Text) {
    q != [] ==> q[0] == ESC && (|q| >= 2 ==>
      if q[1] == 0x5b then
        |q| >= 3 ==>
          if q[2] == 0x4d then |q| < 6
          else if q[2] == 0x3c then forall k :: 3 <= k <= |q| ==> !Mouse(q[2..k])
          else forall i :: 2 <= i < |q| ==> !Final(q[i])
      else if q[1] == 0x5d then
        && (forall i :: 2 <= i < |q| ==> q[i] != BEL)
        && (forall i :: 2 <= i < |q| - 1 ==> !(q[i] == ESC && q[i + 1] == BACKSLASH))
      else if q[1] == 0x50 || q[1] == 0x5f then
        forall i :: 2 <= i < |q| - 1 ==> !(q[i] == ESC && q[i + 1] == BACKSLASH)
      else q[1] == 0x4f && |q| == 2)
  }

  /** What the buffer keeps for later is exactly a sequence that has not reached its end. */
  lemma {:induction false} UnfinishedExactly(q: Text)
    ensures Unfinished(q) <==> Open(q)
  {
    hide IsCompleteSequence, Mouse;
    if q != [] && q[0] == ESC {
      forall k | 1 <= k <= |q| ensures IsCompleteSequence(q[..k]) != Incomplete <==> Done(q, k) {
        DoneExactly(q, k);
      }
      OpenNotDone(q);
    }
  }

  lemma {:induction false} OpenNotDone(q: Text)
    requires q != [] && q[0] == ESC
    ensures Open(q) <==> forall k :: 1 <= k <= |q| ==> !Done(q, k)
  {
    hide Mouse;
    if (forall k :: 1 <= k <= |q| ==> !Done(q, k)) && |q| >= 2 {
      assert !Done(q, 2);
      assert !Done(q, |q|);
      forall i | 2 <= i < |q| ensures q[i] != BEL || q[1] != 0x5d {
        assert !Done(q, i + 1);
      }
      forall i | 2 <= i < |q| ensures !Final(q[i]) || q[1] != 0x5b || q[2] == 0x4d || q[2] == 0x3c {
        assert !Done(q, i + 1);
      }
      forall i | 2 <= i < |q| - 1
        ensures !(q[i] == ESC && q[i + 1] == BACKSLASH) || !(q[1] == 0x50 || q[1] == 0x5f || q[1] == 0x5d)
      {
        assert !Done(q, i + 2);
      }
      forall k | 3 <= k <= |q| ensures !Mouse(q[2..k]) || q[1] != 0x5b || q[2] != 0x3c {
        assert !Done(q, k);
      }
    }
  }

  // ----- Escape sequences

  /** The text is one of the sequences a terminal sends, without regard to ESCs inside it. */
  ghost predicate Form(s: Text) {
    || (exists body: Text, f: Unit :: s == CSI + body + [f] && Final(f) && (forall u :: u in body ==> !Final(u))
          && (if body == [] then f != 0x4d else body[0] != 0x3c))
    || (exists t: Text :: s == CSI + t && Mouse(t))
    || (|s| == 6 && s[..3] == CSI + [0x4d])
    || (exists body: Text :: s == [ESC, 0x5d] + body + [BEL] && BEL !in body)
    || (exists body: Text :: s == [ESC, 0x5d] + body + ST && BEL !in body)
    || (exists body: Text :: s == [ESC, 0x50] + body + ST)
    || (exists body: Text :: s == [ESC, 0x5f] + body + ST)
    || (|s| == 3 && s[..2] == [ESC, 0x4f])
    || (|s| == 2 && s[0] == ESC && s[1] !in [0x5b, 0x5d, 0x50, 0x5f, 0x4f])
  }

  /** No ESC but the first one and that of a closing String Terminator. */
  predicate Sole(s: Text) {
    forall i :: 1 <= i < |s| && s[i] == ESC ==> i == |s| - 2 && s[|s| - 1] == BACKSLASH
  }

  /** Complete at its end and nowhere before. */
  ghost predicate FirstDone(s: Text) {
    |s| >= 2 && s[0] == ESC && Done(s, |s|) && forall n :: 1 <= n < |s| ==> !Done(s, n)
  }

  lemma {:induction false} MouseInner(t: Text)
    requires Mouse(t)
    ensures |t| >= 7 && t[0] == 0x3c && forall i :: 0 <= i < |t| - 1 ==> 0x30 <= t[i] <= 0x3c
  {
    var a: Text, b: Text, c: Text, f: Unit
      :| t == MouseText(a, b, c, f) && Number(a) && Number(b) && Number(c) && (f == 0x4d || f == 0x6d);
    var inner := a + [0x3b] + (b + [0x3b] + c);
    assert forall i :: 0 <= i < |inner| ==> 0x30 <= inner[i] <= 0x3b;
    assert t == [0x3c] + inner + [f];
  }

  lemma {:induction false} ControlDone(s: Text, body: Text, f: Unit)
    requires s == CSI + body + [f] && Final(f) && (forall u :: u in body ==> !Final(u))
    requires if body == [] then f != 0x4d else body[0] != 0x3c
    ensures FirstDone(s)
  {
    hide Mouse;
    assert s[2] == if body == [] then f else body[0];
    assert body != [] ==> body[0] in body;
    forall n | 1 <= n < |s| ensures !Done(s, n) {
      if n >= 3 { assert s[n - 1] == body[n - 3] && body[n - 3] in body; }
    }
  }

  lemma {:induction false} MouseDone(s: Text, t: Text)
    requires s == CSI + t && Mouse(t)
    ensures FirstDone(s)
  {
    MouseInner(t);
    hide Mouse;
    assert s[2..|s|] == t && s[2] == t[0];
    forall n | 1 <= n < |s| ensures !Done(s, n) {
      if n >= 3 && Mouse(s[2..n]) {
        MouseFinal(s[2..n]);
      }
    }
  }

  lemma {:induction false} CommandDone(s: Text, body: Text, end: Text)
    requires s == [ESC, 0x5d] + body + end && (end == [BEL] || end == ST) && BEL !in body && Sole(s)
    ensures FirstDone(s)
  {
    hide Mouse;
    forall n | 1 <= n < |s| ensures !Done(s, n) {
      if 3 <= n < |body| + 3 { assert s[n - 1] == body[n - 3]; }
    }
  }

  lemma {:induction false} StringDone(s: Text, open: Unit, body: Text)
    requires s == [ESC, open] + body + ST && (open == 0x50 || open == 0x5f) && Sole(s)
    ensures FirstDone(s)
  {
    hide Mouse;
  }

  lemma {:induction false} ShortDone(s: Text)
    requires || (|s| == 6 && s[..3] == CSI + [0x4d]) || (|s| == 3 && s[..2] == [ESC, 0x4f])
      || (|s| == 2 && s[0] == ESC && s[1] !in [0x5b, 0x5d, 0x50, 0x5f, 0x4f])
    ensures FirstDone(s)
  {
    hide Mouse;
    if |s| == 6 {
      assert s[0] == s[..3][0] && s[1] == s[..3][1] && s[2] == s[..3][2];
    } else if |s| == 3 {
      assert s[0] == s[..2][0] && s[1] == s[..2][1];
    }
  }

  lemma {:induction false} FormDone(s: Text)
    requires Form(s) && Sole(s)
    ensures FirstDone(s)
  {
    hide Mouse, FirstDone;
    if body: Text, f: Unit
      :| s == CSI + body + [f] && Final(f) && (forall u :: u in body ==> !Final(u))
         && (if body == [] then f != 0x4d else body[0] != 0x3c)
    {
      ControlDone(s, body, f);
    } else if t: Text :| s == CSI + t && Mouse(t) {
      MouseDone(s, t);
    } else if body: Text :| s == [ESC, 0x5d] + body + [BEL] && BEL !in body {
      CommandDone(s, body, [BEL]);
    } else if body: Text :| s == [ESC, 0x5d] + body + ST && BEL !in body {
      CommandDone(s, body, ST);
    } else if body: Text :| s == [ESC, 0x50] + body + ST {
      StringDone(s, 0x50, body);
    } else if body: Text :| s == [ESC, 0x5f] + body + ST {
      StringDone(s, 0x5f, body);
    } else {
      ShortDone(s);
    }
  }

  lemma {:induction false} DoneControl(s: Text)
    requires FirstDone(s) && s[1] == 0x5b
    ensures Form(s)
  {
    hide Mouse;
    var n := |s|;
    if s[2] == 0x4d {
      assert Done(s, 6) && s[..3] == CSI + [0x4d];
    } else if s[2] == 0x3c {
      assert s == CSI + s[2..] && s[2..n] == s[2..];
    } else {
      var body := s[2..n - 1];
      assert s == CSI + body + [s[n - 1]];
      forall u | u in body ensures !Final(u) {
        var i :| 0 <= i < |body| && body[i] == u;
        assert !Done(s, i + 3);
      }
    }
  }

  lemma {:induction false} DoneCommand(s: Text)
    requires FirstDone(s) && s[1] == 0x5d
    ensures Form(s)
  {
    hide Mouse;
    var n := |s|;
    forall i | 2 <= i < n - 1 ensures s[i] != BEL { assert !Done(s, i + 1); }
    if s[n - 1] == BEL {
      assert s == [ESC, 0x5d] + s[2..n - 1] + [BEL];
    } else {
      assert s == [ESC, 0x5d] + s[2..n - 2] + ST;
    }
  }

  lemma {:induction false} DoneForm(s: Text)
    requires FirstDone(s)
    ensures Form(s)
  {
    hide Mouse;
    if s[1] == 0x5b {
      DoneControl(s);
    } else if s[1] == 0x5d {
      DoneCommand(s);
    } else if s[1] == 0x50 || s[1] == 0x5f {
      assert s == [ESC, s[1]] + s[2..|s| - 2] + ST;
    } else if s[1] == 0x4f {
      assert Done(s, 3) && s[..2] == [ESC, 0x4f];
    } else {
      assert Done(s, 2);
    }
  }

  lemma {:induction false} FirstDoneExactly(s: Text)
    requires |s| >= 2 && s[0] == ESC
    ensures FirstDone(s) <==>
      IsCompleteSequence(s) == Complete && forall n :: 1 <= n < |s| ==> IsCompleteSequence(s[..n]) == Incomplete
  {
    hide Done, EndsWith, IsSgrMouse;
    assert s[..|s|] == s;
    forall n | 1 <= n <= |s| ensures IsCompleteSequence(s[..n]) != Incomplete <==> Done(s, n) {
      DoneExactly(s, n);
    }
    forall n | 1 <= n < |s| ensures !Done(s, n) <==> IsCompleteSequence(s[..n]) == Incomplete {}
  }

  /** The escape sequences the chunking law is about are exactly these texts, two escapes among them. */
  lemma {:induction false} WellFormedExactly(s: Text)
    ensures WellFormed(Escape(s)) <==> s == TWIN || (Form(s) && Sole(s) && s != PASTE_START)
  {
    hide IsCompleteSequence, FirstDone, Form;
    if |s| >= 2 && s[0] == ESC {
      FirstDoneExactly(s);
      if s == TWIN {
        TwinDone();
      } else if Sole(s) && FirstDone(s) {
        DoneForm(s);
      } else if Sole(s) && Form(s) {
        FormDone(s);
      }
    } else {
      FormStarts(s);
    }
  }

  lemma {:induction false} FormStarts(s: Text)
    ensures Form(s) ==> |s| >= 2 && s[0] == ESC
  {
    hide Mouse;
  }

  lemma {:induction false} TwinDone()
    ensures FirstDone(TWIN)
  {
  }

  // ----- The standard forms

  /** A sequence the chunking law is about: alone it comes out whole, and short of its end it is kept. */
  ghost predicate Sequence(s: Text) {
    && WellFormed(Escape(s))
    && Extract(s) == Extraction([s], [])
    && forall n :: 0 <= n < |s| ==> Unfinished(s[..n]) && Extract(s[..n]) == Extraction([], s[..n])
  }

  lemma {:induction false} FormSequence(s: Text)
    requires Form(s) && Sole(s) && s != PASTE_START
    ensures Sequence(s)
  {
    hide IsCompleteSequence, Form, Extract, Stream;
    WellFormedExactly(s);
    forall n | 0 <= n < |s| ensures Unfinished(s[..n]) && Extract(s[..n]) == Extraction([], s[..n]) {
      PrefixUnfinished(Escape(s), s[..n]);
      ExtractNothing(s[..n]);
    }
    ExtractNothing([]);
    assert s + [] == s;
    assert s == TWIN ==> !Introduced([]);
    ExtractOne(Escape(s), []);
  }

  /** Control sequences of section 5.4 of ECMA-48: parameter bytes, intermediate bytes, a final byte. Left
      out are the two that open other forms: parameters that begin with `<`, and `M` alone. */
  lemma {:induction false} ControlSequence(p: Text, i: Text, f: Unit)
    requires Within(p, 0x30, 0x3f) && Within(i, 0x20, 0x2f) && Final(f)
    requires (p != [] ==> p[0] != 0x3c) && (p == [] && i == [] ==> f != 0x4d)
    requires CSI + (p + i) + [f] != PASTE_START
    ensures Sequence(CSI + (p + i) + [f])
  {
    hide Sequence;
    var body := p + i;
    var s := CSI + body + [f];
    forall u | u in body ensures !Final(u) && u != ESC {
      assert u in p || u in i;
    }
    assert body != [] ==> body[0] != 0x3c;
    forall k | 1 <= k < |s| ensures s[k] != ESC {
      assert 2 <= k < |s| - 1 ==> s[k] in body;
    }
    FormSequence(s);
  }

  /** Mouse reports in SGR form and in the older form, whose three units are not escapes. */
  lemma {:induction false} MouseReport(a: Text, b: Text, c: Text, f: Unit)
    requires Number(a) && Number(b) && Number(c) && (f == 0x4d || f == 0x6d)
    ensures Sequence(CSI + MouseText(a, b, c, f))
  {
    hide Sequence;
    var t := MouseText(a, b, c, f);
    var s := CSI + t;
    MouseInner(t);
    assert Mouse(t);
    forall k | 1 <= k < |s| ensures s[k] != ESC {
      assert k >= 2 ==> s[k] == t[k - 2];
    }
    assert s[2] == 0x3c;
    hide Mouse, MouseText;
    FormSequence(s);
  }

  lemma {:induction false} OldMouseReport(x: Unit, y: Unit, z: Unit)
    requires x != ESC && y != ESC && z != ESC
    ensures Sequence(CSI + [0x4d, x, y, z])
  {
    hide Sequence, Mouse;
    var s := CSI + [0x4d, x, y, z];
    assert s[..3] == CSI + [0x4d] && s[2] == 0x4d;
    FormSequence(s);
  }

  /** Command strings of section 5.6: OSC to BEL or ST, DCS and APC to ST. */
  lemma {:induction false} CommandString(open: Unit, body: Text, end: Text)
    requires open in [0x5d, 0x50, 0x5f] && ESC !in body
    requires end == ST || (open == 0x5d && end == [BEL])
    requires open == 0x5d ==> BEL !in body
    ensures Sequence([ESC, open] + body + end)
  {
    hide Sequence, Mouse;
    var s := [ESC, open] + body + end;
    assert s[1] == open;
    assert forall k :: 2 <= k < |body| + 2 ==> s[k] in body;
    FormSequence(s);
  }

  /** SS3 with one unit, and ESC with one unit that introduces nothing. */
  lemma {:induction false} ShortSequence(u: Unit)
    requires u != ESC
    ensures Sequence([ESC, 0x4f, u])
    ensures u !in [0x5b, 0x5d, 0x50, 0x5f, 0x4f] ==> Sequence([ESC, u])
  {
    hide Sequence, Mouse;
    assert [ESC, 0x4f, u][..2] == [ESC, 0x4f];
    FormSequence([ESC, 0x4f, u]);
    if u !in [0x5b, 0x5d, 0x50, 0x5f, 0x4f] {
      FormSequence([ESC, u]);
    }
  }

  /** The units that make a second ESC start a sequence of its own are those that ESC would wait for more
      after. */
  lemma {:induction false} IntroducesExactly(u: Unit)
    ensures Introduces(u) <==> Unfinished([ESC, u])
  {
    hide Unfinished, Mouse;
    UnfinishedExactly([ESC, u]);
  }

  // ----- Kitty key presses

  /** A number in decimal. */
  function Decimal(n: nat): Text {
    if n < 10 then [0x30 + n] else Decimal(n / 10) + [0x30 + n % 10]
  }

  /** Nothing, or `:` and digits, or that followed by `:` and at least one digit. */
  ghost predicate Suffix(t: Text) {
    || t == []
    || (exists a: Text :: t == [COLON] + a && Within(a, 0x30, 0x39))
    || (exists a: Text, b: Text :: t == [COLON] + (a + [COLON] + b) && Within(a, 0x30, 0x39) && Number(b))
  }

  /** The text is an unmodified press of the printable key `n`: its number, perhaps with leading zeros,
      and other forms of the key. */
  ghost predicate Presses(s: Text, n: nat) {
    n >= 32 && exists z: Text, t: Text ::
      s == CSI + (z + Decimal(n) + t) + [0x75] && Within(z, 0x30, 0x30) && Suffix(t)
  }

  lemma {:induction false} ValueSnoc(d: Text, u: Unit)
    requires u >= 0x30
    ensures DecimalValue(d + [u]) == 10 * DecimalValue(d) + (u - 0x30)
  {
    assert (d + [u])[..|d|] == d;
  }

  lemma {:induction false} DecimalRead(z: Text, n: nat)
    requires Within(z, 0x30, 0x30)
    ensures Number(z + Decimal(n)) && DecimalValue(z + Decimal(n)) == n
    decreases n, |z|
  {
    if n >= 10 {
      DecimalRead(z, n / 10);
      assert z + Decimal(n) == z + Decimal(n / 10) + [0x30 + n % 10];
      ValueSnoc(z + Decimal(n / 10), 0x30 + n % 10);
    } else {
      ZerosRead(z);
      ValueSnoc(z, 0x30 + n);
    }
  }

  lemma {:induction false} ZerosRead(z: Text)
    requires Within(z, 0x30, 0x30)
    ensures DecimalValue(z) == 0
    decreases |z|
  {
    if z != [] { ZerosRead(z[..|z| - 1]); }
  }

  lemma {:induction false} DecimalWritten(d: Text) returns (z: Text)
    requires Number(d)
    ensures Within(z, 0x30, 0x30) && d == z + Decimal(DecimalValue(d))
    decreases |d|
  {
    var k := |d| - 1;
    var init, last := d[..k], d[k];
    assert d == init + [last];
    ValueSnoc(init, last);
    if init == [] {
      z := [];
      assert DecimalValue(init) == 0;
    } else {
      z := DecimalWritten(init);
      var v := DecimalValue(init);
      if v == 0 {
        assert Decimal(0) == [0x30] && DecimalValue(d) < 10;
        z := init;
      } else {
        assert Decimal(DecimalValue(d)) == Decimal(v) + [last];
      }
    }
  }

  lemma {:induction false} DigitsNoColon(d: Text)
    requires Within(d, 0x30, 0x39)
    ensures COLON !in d && DigitUnits(d)
  {
  }

  lemma {:induction false} TwoParts(d: Text, a: Text)
    requires Within(d, 0x30, 0x39) && Within(a, 0x30, 0x39)
    ensures Split(d + ([COLON] + a), COLON) == [d, a]
  {
    hide Split;
    DigitsNoColon(d);
    DigitsNoColon(a);
    SplitWhole(d, COLON);
    SplitWhole(a, COLON);
    SplitConcat(d, COLON, a);
    Reassociate(d, [COLON], a);
  }

  lemma {:induction false} ThreeParts(d: Text, a: Text, b: Text)
    requires Within(d, 0x30, 0x39) && Within(a, 0x30, 0x39) && Within(b, 0x30, 0x39)
    ensures Split(d + ([COLON] + (a + [COLON] + b)), COLON) == [d, a, b]
  {
    hide Split;
    DigitsNoColon(d);
    SplitWhole(d, COLON);
    TwoParts(a, b);
    Reassociate(a, [COLON], b);
    SplitConcat(d, COLON, a + [COLON] + b);
    Reassociate(d, [COLON], a + [COLON] + b);
  }

  lemma {:induction false} SuffixParts(d: Text, t: Text)
    requires Number(d) && Suffix(t)
    ensures var parts := Split(d + t, COLON);
      && parts[0] == d && |parts| <= 3 && (forall i :: 0 <= i < |parts| ==> DigitUnits(parts[i]))
      && (|parts| == 3 ==> parts[2] != [])
  {
    hide Split;
    if t == [] {
      DigitsNoColon(d);
      SplitWhole(d, COLON);
      assert d + t == d;
    } else if a: Text :| t == [COLON] + a && Within(a, 0x30, 0x39) {
      TwoParts(d, a);
    } else {
      var a: Text, b: Text :| t == [COLON] + (a + [COLON] + b) && Within(a, 0x30, 0x39) && Number(b);
      ThreeParts(d, a, b);
    }
  }

  lemma {:induction false} PartsSuffix(inner: Text) returns (t: Text)
    requires var parts := Split(inner, COLON);
      && |parts| <= 3 && (forall i :: 0 <= i < |parts| ==> DigitUnits(parts[i])) && (|parts| == 3 ==> parts[2] != [])
    ensures Suffix(t) && inner == Split(inner, COLON)[0] + t
  {
    hide Split, Join;
    var p := Split(inner, COLON);
    JoinSplit(inner, COLON);
    if |p| == 1 {
      t := [];
      assert p == [p[0]];
      JoinOne(p[0]);
      assert inner == p[0] + t;
    } else if |p| == 2 {
      t := [COLON] + p[1];
      assert p == [p[0], p[1]];
      JoinTwo(p[0], p[1]);
      assert Within(p[1], 0x30, 0x39) && inner == p[0] + t;
    } else {
      t := [COLON] + (p[1] + [COLON] + p[2]);
      assert p == [p[0], p[1], p[2]];
      JoinThree(p[0], p[1], p[2], COLON);
      assert Within(p[1], 0x30, 0x39) && Number(p[2]) && inner == p[0] + t;
    }
  }

  lemma {:induction false} JoinOne(a: Text)
    ensures Join([a], COLON) == a
  {
  }

  lemma {:induction false} JoinTwo(a: Text, b: Text)
    ensures Join([a, b], COLON) == a + [COLON] + b
  {
    assert [a, b][1..] == [b];
  }

  /** The search for a key press finds exactly the printed presses. */
  lemma {:induction false} PressExactly(s: Text, n: nat)
    ensures KittyCodepoint(s) == Some(n) <==> Presses(s, n)
  {
    hide Split, DecimalValue, Decimal, Suffix;
    if KittyCodepoint(s) == Some(n) {
      var inner := s[2..|s| - 1];
      var t := PartsSuffix(inner);
      var z := DecimalWritten(Split(inner, COLON)[0]);
      assert s == CSI + (z + Decimal(n) + t) + [0x75];
    }
    if Presses(s, n) {
      var z: Text, t: Text :| s == CSI + (z + Decimal(n) + t) + [0x75] && Within(z, 0x30, 0x30) && Suffix(t);
      DecimalRead(z, n);
      SuffixParts(z + Decimal(n), t);
      assert s[2..|s| - 1] == z + Decimal(n) + t;
    }
  }

  // ----- The events of a list of tokens

  function EventOf(t: Token): Event {
    if t.Pasted? then Paste(t.content) else Data(TextOf(t))
  }

  /** Token `k` is the character of the key press just before it, sent a second time. */
  ghost predicate Echo(ts: seq<Token>, k: nat)
    requires k < |ts|
  {
    k > 0 && ts[k].Key? && ts[k - 1].Escape? && Presses(ts[k - 1].text, ts[k].unit)
  }

  /** Every token in order, without the echoes. */
  ghost function Delivered(ts: seq<Token>): seq<Event> {
    if ts == [] then [] else
      var k := |ts| - 1;
      Delivered(ts[..k]) + (if Echo(ts, k) then [] else [EventOf(ts[k])])
  }

  /** The key press pending after the tokens. */
  ghost predicate Pends(ts: seq<Token>, pending: Option<nat>) {
    forall n: nat :: pending == Some(n) <==> ts != [] && ts[|ts| - 1].Escape? && Presses(ts[|ts| - 1].text, n)
  }

  /** The events the chunking law speaks of are the tokens without the echoes. */
  lemma {:induction false} DeliveredExactly(ts: seq<Token>)
    requires AllWellFormed(ts)
    ensures Expected(None, ts).events == Delivered(ts)
    ensures Pends(ts, Expected(None, ts).pending)
    decreases |ts|
  {
    hide WellFormed, Presses, KittyCodepoint, TextOf, Emit;
    if ts != [] {
      var k := |ts| - 1;
      DeliveredExactly(ts[..k]);
      assert ts == ts[..k] + [ts[k]];
      ExpectedConcat(None, ts[..k], [ts[k]]);
      ExpectedOne(Expected(None, ts[..k]).pending, ts[k]);
      assert WellFormed(ts[k]);
      LastDelivered(ts, Expected(None, ts[..k]).pending);
    }
  }

  lemma {:induction false} ExpectedOne(pending: Option<nat>, t: Token)
    ensures Expected(pending, [t])
         == if t.Pasted? then Emission(None, [Paste(t.content)]) else Emit(pending, TextOf(t))
  {
    var first := if t.Pasted? then Emission(None, [Paste(t.content)]) else Emit(pending, TextOf(t));
    assert [t][1..] == [] && Expected(first.pending, []) == Emission(first.pending, []);
    assert first.events + [] == first.events;
  }

  lemma {:induction false} LastDelivered(ts: seq<Token>, pending: Option<nat>)
    requires ts != [] && WellFormed(ts[|ts| - 1]) && Pends(ts[..|ts| - 1], pending)
    ensures var e := Expected(pending, [ts[|ts| - 1]]);
      && e.events == (if Echo(ts, |ts| - 1) then [] else [EventOf(ts[|ts| - 1])])
      && Pends(ts, e.pending)
  {
    hide IsCompleteSequence, KittyCodepoint, Expected, Presses;
    var k := |ts| - 1;
    var t := ts[k];
    var e := Expected(pending, [t]);
    ExpectedOne(pending, t);
    if t.Escape? {
      forall n: nat ensures e.pending == Some(n) <==> Presses(t.text, n) { PressExactly(t.text, n); }
    } else if t.Key? {
      assert pending == Some(t.unit) <==> Echo(ts, k);
      NoPress([t.unit]);
    }
  }

  lemma {:induction false} NoPress(s: Text)
    requires |s| < 4
    ensures KittyCodepoint(s) == None
  {
  }

  /** The timeout delivers what is buffered and leaves nothing pending. */
  lemma {:induction false} FlushDelivers(s: State)
    requires Unfinished(s.buffer) && s.buffer != []
    ensures Flush(s) == Step(State([], s.pasteMode, s.pasteBuffer, None), [Data(s.buffer)])
  {
    hide Unfinished;
    if KittyCodepoint(s.buffer).Some? {
      PressIsWhole(s.buffer);
    }
  }

  lemma {:induction false} PressIsWhole(s: Text)
    requires KittyCodepoint(s).Some?
    ensures !Unfinished(s)
  {
    hide KittyCodepoint, Mouse, Presses;
    var n := KittyCodepoint(s).value;
    PressExactly(s, n);
    UnfinishedExactly(s);
    PressShape(s, n);
  }

  lemma {:induction false} PressShape(s: Text, n: nat)
    requires Presses(s, n)
    ensures |s| >= 4 && s[0] == ESC && s[1] == 0x5b && 0x30 <= s[2] <= 0x39 && s[|s| - 1] == 0x75
  {
    hide Suffix, Decimal;
    var z: Text, t: Text :| s == CSI + (z + Decimal(n) + t) + [0x75] && Within(z, 0x30, 0x30) && Suffix(t);
    DecimalRead(z, n);
    assert s[2] == (z + Decimal(n))[0];
  }
}
