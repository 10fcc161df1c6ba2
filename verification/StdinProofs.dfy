/** Input is split the same way however the operating system cuts it into chunks. */
module StdinProofs {
  import opened Basics
  import opened Strings
  import opened StdinModel

  /** What a terminal sends: single units, escape sequences and pastes. */
  datatype Token = Key(unit: Unit) | Escape(text: Text) | Pasted(content: Text)

  function TextOf(t: Token): Text {
    match t
    case Key(u) => [u]
    case Escape(s) => s
    case Pasted(c) => PASTE_START + c + PASTE_END
  }

  /** Two escapes: the Escape key pressed with Alt, or twice. */
  const TWIN: Text := [ESC, ESC]

  /** An escape sequence is a shortest complete one whose only ESCs open it or its closing ST, or two
      escapes. */
  ghost predicate WellFormed(t: Token) {
    match t
    case Key(u) => u != ESC
    case Escape(s) =>
      && |s| >= 2 && s[0] == ESC && s != PASTE_START
      && IsCompleteSequence(s) == Complete
      && (forall n :: 1 <= n < |s| ==> IsCompleteSequence(s[..n]) == Incomplete)
      && (s == TWIN || forall i :: 1 <= i < |s| && s[i] == ESC ==> i == |s| - 2 && s[|s| - 1] == BACKSLASH)
    case Pasted(c) => IndexOf(c, PASTE_END) == -1
  }

  ghost predicate AllWellFormed(ts: seq<Token>) {
    forall i :: 0 <= i < |ts| ==> WellFormed(ts[i])
  }

  /** The text goes on with a unit that makes an ESC before it the start of a sequence. */
  predicate Introduced(rest: Text) { rest != [] && Introduces(rest[0]) }

  /** Two escapes are not followed by a key that would make the second one start a sequence. */
  predicate Separate(ts: seq<Token>, i: nat)
    requires i + 1 < |ts|
  {
    ts[i] == Escape(TWIN) ==> !Introduced(TextOf(ts[i + 1]))
  }

  predicate Separated(ts: seq<Token>) {
    forall i :: 0 <= i < |ts| - 1 ==> Separate(ts, i)
  }

  ghost predicate Grammatical(ts: seq<Token>) { AllWellFormed(ts) && Separated(ts) }

  lemma {:induction false} PartGrammatical(ts: seq<Token>, i: nat, j: nat)
    requires i <= j <= |ts| && Grammatical(ts)
    ensures Grammatical(ts[i..j])
  {
    hide WellFormed;
    forall k | 0 <= k < |ts[i..j]| - 1 ensures Separate(ts[i..j], k) { assert Separate(ts, i + k); }
  }

  lemma {:induction false} RestGrammatical(ts: seq<Token>, i: nat)
    requires i <= |ts| && Grammatical(ts)
    ensures Grammatical(ts[i..]) && Grammatical(ts[..i])
  {
    hide Grammatical;
    PartGrammatical(ts, i, |ts|);
    PartGrammatical(ts, 0, i);
    assert ts[i..|ts|] == ts[i..] && ts[0..i] == ts[..i];
  }

  function Stream(ts: seq<Token>): Text {
    if ts == [] then [] else TextOf(ts[0]) + Stream(ts[1..])
  }

  /** The events the tokens stand for, with the duplicate suppression applied. */
  function Expected(pending: Option<nat>, ts: seq<Token>): Emission
    decreases |ts|
  {
    if ts == [] then Emission(pending, []) else
      var first := if ts[0].Pasted? then Emission(None, [Paste(ts[0].content)]) else Emit(pending, TextOf(ts[0]));
      var rest := Expected(first.pending, ts[1..]);
      Emission(rest.pending, first.events + rest.events)
  }

  lemma {:induction false} StreamConcat(a: seq<Token>, b: seq<Token>)
    ensures Stream(a + b) == Stream(a) + Stream(b)
  {
    if a == [] {
      assert a + b == b;
    } else {
      assert (a + b)[0] == a[0] && (a + b)[1..] == a[1..] + b;
      StreamConcat(a[1..], b);
    }
  }

  lemma {:induction false} ExpectedConcat(pending: Option<nat>, a: seq<Token>, b: seq<Token>)
    ensures var x := Expected(pending, a); var y := Expected(x.pending, b);
      Expected(pending, a + b) == Emission(y.pending, x.events + y.events)
    decreases |a|
  {
    hide Emit, TextOf;
    if a == [] {
      assert a + b == b;
    } else {
      assert (a + b)[0] == a[0] && (a + b)[1..] == a[1..] + b;
      var first := if a[0].Pasted? then Emission(None, [Paste(a[0].content)]) else Emit(pending, TextOf(a[0]));
      ExpectedConcat(first.pending, a[1..], b);
      var x := Expected(first.pending, a[1..]);
      var y := Expected(x.pending, b);
      assert first.events + (x.events + y.events) == (first.events + x.events) + y.events;
    }
  }

  // ----- Extraction

  function Texts(ts: seq<Token>): seq<Text> {
    seq(|ts|, i requires 0 <= i < |ts| => TextOf(ts[i]))
  }

  ghost predicate NoPaste(ts: seq<Token>) {
    forall i :: 0 <= i < |ts| ==> !ts[i].Pasted?
  }

  /** The beginning of an escape sequence that is not complete yet. */
  ghost predicate Unfinished(q: Text) {
    q != [] ==> q[0] == ESC && forall n :: 1 <= n <= |q| ==> IsCompleteSequence(q[..n]) == Incomplete
  }

  lemma {:induction false} EscapeEnd(s: Text, rest: Text)
    requires WellFormed(Escape(s)) && (s == TWIN ==> !Introduced(rest))
    ensures FindEnd(s + rest, 1) == |s| && !DoubleEscape(s + rest, |s|)
  {
    hide IsCompleteSequence;
    assert forall n :: 1 <= n <= |s| ==> (s + rest)[..n] == s[..n];
    assert s[..|s|] == s;
  }

  lemma {:induction false} UnfinishedEnd(q: Text)
    requires Unfinished(q) && q != []
    ensures FindEnd(q, 1) == |q| + 1
  {
  }

  /** Complete tokens come out one by one; an unfinished sequence at the end is kept. */
  lemma {:induction false} ExtractTokens(ts: seq<Token>, q: Text)
    requires Grammatical(ts) && NoPaste(ts) && Unfinished(q)
    ensures Extract(Stream(ts) + q) == Extraction(Texts(ts), q)
    decreases |ts|
  {
    hide Extract, IsCompleteSequence, TextOf, Separated;
    if ts == [] {
      assert Stream(ts) + q == q && Texts(ts) == [];
      ExtractNothing(q);
    } else {
      var head, tail := TextOf(ts[0]), Stream(ts[1..]) + q;
      assert Stream(ts) + q == head + tail;
      RestGrammatical(ts, 1);
      ExtractTokens(ts[1..], q);
      TwinEnds(ts, q);
      assert Texts(ts) == [head] + Texts(ts[1..]);
      ExtractOne(ts[0], tail);
    }
  }

  lemma {:induction false} TwinEnds(ts: seq<Token>, rest: Text)
    requires Grammatical(ts) && ts != [] && !Introduced(rest)
    ensures ts[0] == Escape(TWIN) ==> !Introduced(Stream(ts[1..]) + rest)
  {
    hide IsCompleteSequence;
    if |ts| > 1 {
      assert Separate(ts, 0) && WellFormed(ts[1]);
      assert Stream(ts[1..]) == TextOf(ts[1]) + Stream(ts[1..][1..]);
    }
  }

  lemma {:induction false} ExtractNothing(q: Text)
    requires Unfinished(q)
    ensures Extract(q) == Extraction([], q)
  {
    hide IsCompleteSequence;
    if q != [] { UnfinishedEnd(q); }
  }

  /** The first token comes out first. */
  lemma {:induction false} ExtractOne(t: Token, tail: Text)
    requires WellFormed(t) && !t.Pasted? && (t == Escape(TWIN) ==> !Introduced(tail))
    ensures Extract(TextOf(t) + tail) == Extraction([TextOf(t)] + Extract(tail).sequences, Extract(tail).remainder)
  {
    hide IsCompleteSequence, FindEnd, DoubleEscape;
    var head := TextOf(t);
    assert (head + tail)[|head|..] == tail && (head + tail)[..|head|] == head;
    if t.Escape? { EscapeEnd(head, tail); }
  }

  lemma {:induction false} EmitTokens(pending: Option<nat>, ts: seq<Token>)
    requires NoPaste(ts)
    ensures EmitAll(pending, Texts(ts)) == Expected(pending, ts)
    decreases |ts|
  {
    if ts != [] {
      assert Texts(ts)[1..] == Texts(ts[1..]);
      EmitTokens(Emit(pending, TextOf(ts[0])).pending, ts[1..]);
    }
  }

  // ----- Paste markers

  lemma {:induction false} StartUnfinished(n: nat)
    requires n < |PASTE_START|
    ensures Unfinished(PASTE_START[..n])
  {
    forall k | 1 <= k <= n ensures IsCompleteSequence(PASTE_START[..n][..k]) == Incomplete {
      assert PASTE_START[..n][..k] == PASTE_START[..k];
      StartPrefix(k);
    }
  }

  lemma {:induction false} StartPrefix(k: nat)
    requires 1 <= k < |PASTE_START|
    ensures IsCompleteSequence(PASTE_START[..k]) == Incomplete
  {
    hide IsSgrMouse, EndsWith;
    var x := PASTE_START[..k];
    assert forall i :: 0 <= i < k ==> x[i] == PASTE_START[i];
    if k >= 3 {
      assert x[2..][0] == x[2] && x[2..][|x[2..]| - 1] == x[k - 1];
    }
  }

  lemma {:induction false} StartComplete()
    ensures IsCompleteSequence(PASTE_START) == Complete
  {
    assert PASTE_START[2..][3] == 0x7e;
  }

  /** No escape token begins a paste marker, whatever may follow it. */
  lemma {:induction false} EscapeIsNoStart(s: Text, rest: Text, p: nat)
    requires WellFormed(Escape(s)) && p < |s| && (s == TWIN ==> !Introduced(rest))
    ensures !OccursAt(s + rest, PASTE_START, p)
  {
    hide IsCompleteSequence;
    var x := s + rest;
    var found := OccursAt(x, PASTE_START, p);
    assert found ==> x[p] == x[p..p + 6][0] && x[p + 1] == x[p..p + 6][1];
    assert s == TWIN && |x| > 2 ==> x[2] == rest[0];
    assert found ==> p == 0;
    if |s| >= 6 {
      assert x[0..6] == s[..6];
      StartComplete();
      assert |s| == 6 ==> s[..6] == s;
    } else {
      var n := |s|;
      assert x[..n] == s && PASTE_START[..n][..n] == PASTE_START[..n];
      assert found ==> x[0..6][..n] == x[..n];
      StartUnfinished(n);
    }
  }

  lemma {:induction false} NoStartIn(ts: seq<Token>, rest: Text, p: nat)
    requires Grammatical(ts) && NoPaste(ts) && p < |Stream(ts)| && !Introduced(rest)
    ensures !OccursAt(Stream(ts) + rest, PASTE_START, p)
    decreases |ts|
  {
    hide IsCompleteSequence;
    var head, tail := TextOf(ts[0]), Stream(ts[1..]) + rest;
    assert Stream(ts) + rest == head + tail;
    TwinEnds(ts, rest);
    RestGrammatical(ts, 1);
    if p >= |head| {
      NoStartIn(ts[1..], rest, p - |head|);
      OccursInTail(head, tail, PASTE_START, p);
    } else if ts[0].Escape? {
      EscapeIsNoStart(head, tail, p);
    } else {
      assert p + 6 <= |head + tail| ==> (head + tail)[p..p + 6][0] == head[0];
    }
  }

  lemma {:induction false} OccursInTail(head: Text, tail: Text, pat: Text, p: nat)
    requires p >= |head|
    ensures OccursAt(head + tail, pat, p) <==> OccursAt(tail, pat, p - |head|)
  {
    assert p + |pat| <= |head + tail| ==> (head + tail)[p..p + |pat|] == tail[p - |head|..p - |head| + |pat|];
  }

  /** An unfinished prefix of a token holds no paste marker either. */
  lemma {:induction false} PrefixIsNoStart(t: Token, q: Text, p: nat)
    requires WellFormed(t) && |q| < |TextOf(t)| && q == TextOf(t)[..|q|] && (t.Pasted? ==> |q| < 6)
    ensures !OccursAt(q, PASTE_START, p)
  {
    if t.Escape? && p < |t.text| {
      EscapeIsNoStart(t.text, [], p);
      assert p + 6 <= |q| ==> (t.text + [])[p..p + 6] == q[p..p + 6];
    }
  }

  lemma {:induction false} PrefixUnfinished(t: Token, q: Text)
    requires WellFormed(t) && |q| < |TextOf(t)| && q == TextOf(t)[..|q|] && (t.Pasted? ==> |q| < 6)
    ensures Unfinished(q)
  {
    match t
    case Key(_) =>
    case Escape(s) =>
      forall n | 1 <= n <= |q| ensures IsCompleteSequence(q[..n]) == Incomplete {
        assert q[..n] == s[..n];
      }
    case Pasted(c) =>
      assert q == PASTE_START[..|q|];
      StartUnfinished(|q|);
  }

  /** A paste ends at the first end marker, which is the one that closes it. */
  lemma {:induction false} PasteEnds(c: Text, rest: Text)
    requires IndexOf(c, PASTE_END) == -1
    ensures IndexOf(c + PASTE_END + rest, PASTE_END) == |c|
  {
    var x := c + PASTE_END + rest;
    forall k | 0 <= k < |c| ensures !OccursAt(x, PASTE_END, k) { NotYetEnded(c, rest, k); }
    assert x[|c|..|c| + 6] == PASTE_END;
    IndexOfIs(x, PASTE_END, |c|);
  }

  lemma {:induction false} NotYetEnded(c: Text, rest: Text, k: nat)
    requires IndexOf(c, PASTE_END) == -1 && k < |c|
    ensures !OccursAt(c + PASTE_END + rest, PASTE_END, k)
  {
    var x := c + PASTE_END + rest;
    if k + 6 <= |c| {
      assert x[k..k + 6] == c[k..k + 6] && !OccursAt(c, PASTE_END, k);
    } else {
      assert k + 6 <= |x| && x[k..k + 6][|c| - k] == x[|c|] == ESC;
    }
  }

  lemma {:induction false} PasteOpen(c: Text, paste: Text)
    requires IndexOf(c, PASTE_END) == -1 && |paste| < |c| + 6 && paste == (c + PASTE_END)[..|paste|]
    ensures IndexOf(paste, PASTE_END) == -1
  {
    forall k: nat ensures !OccursAt(paste, PASTE_END, k) {
      if k + 6 <= |paste| {
        NotYetEnded(c, [], k);
        var w := c + PASTE_END;
        assert w + [] == w && paste[k..k + 6] == w[..|paste|][k..k + 6] == w[k..k + 6];
      }
    }
  }

  // ----- One chunk

  /** The buffer has taken in a proper part of `ts[0]` and `rest` is still to come. */
  ghost predicate Waiting(s: State, ts: seq<Token>, rest: Text) {
    && Grammatical(ts)
    && if s.pasteMode then
         && ts != [] && ts[0].Pasted? && s.buffer == [] && |s.pasteBuffer| < |ts[0].content| + 6
         && s.pasteBuffer + rest == ts[0].content + PASTE_END + Stream(ts[1..])
       else
         && s.pasteBuffer == [] && s.buffer + rest == Stream(ts)
         && (ts == [] ==> s.buffer == [])
         && (ts != [] ==> |s.buffer| < |TextOf(ts[0])| && (ts[0].Pasted? ==> |s.buffer| < 6))
  }

  /** The events of a step plus those still expected are those expected before it. */
  ghost predicate Accounts(pending: Option<nat>, ts: seq<Token>, step: Step, k: nat)
    requires k <= |ts|
  {
    var later := Expected(step.state.pending, ts[k..]);
    Expected(pending, ts) == Emission(later.pending, step.events + later.events)
  }

  lemma {:induction false} PasteForgetsPending(p: Option<nat>, q: Option<nat>, ts: seq<Token>)
    requires ts != [] && ts[0].Pasted?
    ensures Expected(p, ts) == Expected(q, ts)
  {
  }

  /** Two ways of cutting the same text. */
  lemma {:induction false} Align(a: Text, b: Text, c: Text, d: Text)
    requires a + b == c + d
    ensures |a| <= |c| ==> a == c[..|a|]
    ensures |a| >= |c| ==> a[..|c|] == c && a == c + a[|c|..] && a[|c|..] + b == d
  {
    var x := a + b;
    assert x[..|a|] == a && x[|a|..] == b;
    if |a| <= |c| {
      assert x[..|a|] == c[..|a|];
    } else {
      assert x[..|c|] == c && x[|c|..] == d;
      assert x[|c|..] == a[|c|..] + b;
    }
  }

  /** A prefix of the stream is some whole tokens and a proper prefix of the next. */
  lemma {:induction false} Cut(ts: seq<Token>, b: Text, rest: Text) returns (k: nat, q: Text)
    requires b + rest == Stream(ts)
    ensures k <= |ts| && b == Stream(ts[..k]) + q
    ensures if k == |ts| then q == [] else |q| < |TextOf(ts[k])| && q == TextOf(ts[k])[..|q|]
    decreases |ts|
  {
    hide TextOf;
    if ts == [] {
      k, q := 0, [];
    } else {
      var head := TextOf(ts[0]);
      Align(b, rest, head, Stream(ts[1..]));
      if |b| < |head| {
        k, q := 0, b;
      } else {
        var n: nat;
        n, q := Cut(ts[1..], b[|head|..], rest);
        k := n + 1;
        assert ts[..k] == [ts[0]] + ts[1..][..n];
        assert b == head + (Stream(ts[1..][..n]) + q) == (head + Stream(ts[1..][..n])) + q;
      }
    }
  }

  function FirstPaste(ts: seq<Token>): (j: nat)
    ensures j <= |ts| && NoPaste(ts[..j]) && (j < |ts| ==> ts[j].Pasted?)
    decreases |ts|
  {
    if ts == [] || ts[0].Pasted? then 0 else
      var j := 1 + FirstPaste(ts[1..]);
      assert forall i :: 1 <= i < j ==> ts[..j][i] == ts[1..][..j - 1][i - 1];
      j
  }

  lemma {:induction false} StreamSplit(ts: seq<Token>, j: nat)
    requires j <= |ts|
    ensures Stream(ts) == Stream(ts[..j]) + Stream(ts[j..])
  {
    hide Stream;
    assert ts == ts[..j] + ts[j..];
    StreamConcat(ts[..j], ts[j..]);
  }

  lemma {:induction false} ExpectedSplit(pending: Option<nat>, ts: seq<Token>, j: nat)
    requires j <= |ts|
    ensures var x := Expected(pending, ts[..j]); var y := Expected(x.pending, ts[j..]);
      Expected(pending, ts) == Emission(y.pending, x.events + y.events)
  {
    assert ts == ts[..j] + ts[j..];
    ExpectedConcat(pending, ts[..j], ts[j..]);
  }

  /** Input that holds no complete paste marker: whole tokens are emitted, the rest is kept. */
  lemma {:induction false} PlainStep(s: State, ts: seq<Token>, b: Text, rest: Text) returns (k: nat)
    requires Grammatical(ts) && !s.pasteMode && s.pasteBuffer == [] && b + rest == Stream(ts)
    requires FirstPaste(ts) < |ts| ==> |b| < |Stream(ts[..FirstPaste(ts)])| + 6
    ensures k <= |ts| && IndexOf(b, PASTE_START) == -1
    ensures var x := Extract(b); var e := EmitAll(s.pending, x.sequences);
      var step := Step(s.(buffer := x.remainder, pending := e.pending), e.events);
      Waiting(step.state, ts[k..], rest) && Accounts(s.pending, ts, step, k)
  {
    hide IsCompleteSequence, Extract, EmitAll, Expected, TextOf, Separated;
    var j := FirstPaste(ts);
    var q: Text;
    k, q := Cut(ts, b, rest);
    PlainPrefix(ts, b, k);
    var done := ts[..k];
    RestGrammatical(ts, k);
    StreamSplit(ts, k);
    Align(b, rest, Stream(done), Stream(ts[k..]));
    assert b[|Stream(done)|..] == q;
    if k < |ts| {
      PrefixUnfinished(ts[k], q);
      forall p: nat ensures !OccursAt(q, PASTE_START, p) { PrefixIsNoStart(ts[k], q, p); }
    }
    forall p: nat ensures !OccursAt(b, PASTE_START, p) {
      if p < |Stream(done)| {
        NoStartIn(done, q, p);
      } else {
        OccursInTail(Stream(done), q, PASTE_START, p);
      }
    }
    ExtractTokens(done, q);
    EmitTokens(s.pending, done);
    ExpectedSplit(s.pending, ts, k);
  }

  lemma {:induction false} PlainPrefix(ts: seq<Token>, b: Text, k: nat)
    requires k <= |ts| && |Stream(ts[..k])| <= |b|
    requires FirstPaste(ts) < |ts| ==> |b| < |Stream(ts[..FirstPaste(ts)])| + 6
    ensures NoPaste(ts[..k])
    ensures k < |ts| && ts[k].Pasted? ==> |b| - |Stream(ts[..k])| < 6
  {
    hide Stream;
    var j := FirstPaste(ts);
    if j < |ts| && k > j {
      StreamGrows(ts, j, k);
    }
    if k < j {
      assert ts[..j][k] == ts[k];
    }
    assert k <= j ==> forall i :: 0 <= i < k ==> ts[..k][i] == ts[..j][i];
  }

  lemma {:induction false} StreamGrows(ts: seq<Token>, j: nat, k: nat)
    requires j < k <= |ts|
    ensures |Stream(ts[..k])| >= |Stream(ts[..j])| + |TextOf(ts[j])|
  {
    assert ts[..k] == ts[..j] + ts[j..k];
    StreamConcat(ts[..j], ts[j..k]);
    assert Stream(ts[j..k]) == TextOf(ts[j]) + Stream(ts[j..k][1..]);
  }

  lemma {:induction false} NothingAccounts(state: State, ts: seq<Token>)
    ensures Accounts(state.pending, ts, Step(state, []), 0)
  {
    assert ts[0..] == ts;
    var later := Expected(state.pending, ts);
    assert [] + later.events == later.events;
  }

  lemma {:induction false} PasteAccounts(pending: Option<nat>, ts: seq<Token>, step: Step, n: nat)
    requires ts != [] && ts[0].Pasted? && n <= |ts[1..]| && Accounts(None, ts[1..], step, n)
    ensures Accounts(pending, ts, Step(step.state, [Paste(ts[0].content)] + step.events), n + 1)
  {
    assert ts[1..][n..] == ts[n + 1..];
    var later := Expected(step.state.pending, ts[n + 1..]);
    var p := [Paste(ts[0].content)];
    assert p + (step.events + later.events) == (p + step.events) + later.events;
  }

  /** A paste whose opening marker has been seen: it stays open or is delivered whole. */
  lemma {:induction false} PasteStep(paste: Text, pending: Option<nat>, ts: seq<Token>, rest: Text) returns (k: nat)
    requires Grammatical(ts) && ts != [] && ts[0].Pasted?
    requires paste + rest == ts[0].content + PASTE_END + Stream(ts[1..])
    ensures k <= |ts|
    ensures var step := ClosePaste(paste, pending); Waiting(step.state, ts[k..], rest) && Accounts(pending, ts, step, k)
    decreases |paste|, 0
  {
    hide IsCompleteSequence, Process, Expected, Accounts, Grammatical, TextOf;
    RestGrammatical(ts, 1);
    PasteIsOne(ts);
    var c := ts[0].content;
    Align(paste, rest, c + PASTE_END, Stream(ts[1..]));
    if |paste| < |c| + 6 {
      PasteOpen(c, paste);
      k := 0;
      assert ts[0..] == ts;
      NothingAccounts(State([], true, paste, pending), ts);
    } else {
      var remaining := paste[|c| + 6..];
      PasteEnds(c, remaining);
      assert paste[..|c|] == c;
      var n: nat := 0;
      if remaining == [] {
        NothingAccounts(INITIAL, ts[1..]);
        NothingWaits(ts[1..], rest);
        PasteAccounts(pending, ts, Step(INITIAL, []), 0);
      } else {
        StartWaits(ts[1..], remaining + rest);
        n := ChunkStep(INITIAL, ts[1..], remaining, rest);
        PasteAccounts(pending, ts, Process(INITIAL, remaining), n);
      }
      k := n + 1;
      assert ts[1..][n..] == ts[k..];
    }
  }

  lemma {:induction false} PasteIsOne(ts: seq<Token>)
    requires Grammatical(ts) && ts != [] && ts[0].Pasted?
    ensures IndexOf(ts[0].content, PASTE_END) == -1
  {
    hide IndexOf;
    assert WellFormed(ts[0]);
  }

  lemma {:induction false} StartWaits(ts: seq<Token>, rest: Text)
    requires Grammatical(ts) && rest == Stream(ts)
    ensures Waiting(INITIAL, ts, rest)
  {
    hide IsCompleteSequence, Separated;
    assert [] + rest == rest;
    if ts != [] { assert WellFormed(ts[0]); }
  }

  lemma {:induction false} NothingWaits(ts: seq<Token>, rest: Text)
    requires Grammatical(ts) && rest == Stream(ts)
    ensures Waiting(INITIAL, ts[0..], rest)
  {
    hide Grammatical;
    assert ts[0..] == ts;
    StartWaits(ts, rest);
  }

  /** One chunk takes the buffer from waiting for one part of the stream to waiting for the next. */
  lemma {:induction false} ChunkStep(s: State, ts: seq<Token>, chunk: Text, rest: Text) returns (k: nat)
    requires Waiting(s, ts, chunk + rest) && chunk != []
    ensures k <= |ts|
    ensures var step := Process(s, chunk); Waiting(step.state, ts[k..], rest) && Accounts(s.pending, ts, step, k)
    decreases |s.buffer| + |s.pasteBuffer| + |chunk|, 1
  {
    hide IsCompleteSequence, Extract, EmitAll, Expected, TextOf, ClosePaste, Grammatical;
    if s.pasteMode {
      var paste := s.pasteBuffer + (s.buffer + chunk);
      assert paste + rest == s.pasteBuffer + (chunk + rest);
      k := PasteStep(paste, s.pending, ts, rest);
    } else {
      var b := s.buffer + chunk;
      assert b + rest == s.buffer + (chunk + rest);
      var j := FirstPaste(ts);
      if j < |ts| && |b| >= |Stream(ts[..j])| + 6 {
        k := OpeningStep(s, ts, chunk, rest, j);
      } else {
        k := PlainStep(s, ts, b, rest);
      }
    }
  }

  /** The chunk completes the opening marker of a paste. */
  lemma {:induction false} OpeningStep(s: State, ts: seq<Token>, chunk: Text, rest: Text, j: nat) returns (k: nat)
    requires Grammatical(ts) && !s.pasteMode && s.pasteBuffer == [] && chunk != []
    requires (s.buffer + chunk) + rest == Stream(ts)
    requires j == FirstPaste(ts) < |ts| && |s.buffer + chunk| >= |Stream(ts[..j])| + 6
    ensures k <= |ts|
    ensures var step := Process(s, chunk); Waiting(step.state, ts[k..], rest) && Accounts(s.pending, ts, step, k)
    decreases |s.buffer| + |s.pasteBuffer| + |chunk|, 0
  {
    hide IsCompleteSequence, Extract, EmitAll, Expected, ClosePaste, Stream, Grammatical, Accounts, TextOf;
    RestGrammatical(ts, j);
    var b := s.buffer + chunk;
    var h := |Stream(ts[..j])|;
    var paste := b[h + 6..];
    OpeningMarker(ts, b, rest, j);
    ExtractTokens(ts[..j], []);
    assert Stream(ts[..j]) + [] == b[..h];
    EmitTokens(s.pending, ts[..j]);
    assert ts[j..][1..] == ts[j + 1..];
    var n := PasteStep(paste, None, ts[j..], rest);
    k := j + n;
    assert ts[j..][n..] == ts[k..];
    OpeningAccounts(s.pending, ts, j, n, ClosePaste(paste, None));
  }

  lemma {:induction false} OpeningMarker(ts: seq<Token>, b: Text, rest: Text, j: nat)
    requires Grammatical(ts) && b + rest == Stream(ts)
    requires j == FirstPaste(ts) < |ts| && |b| >= |Stream(ts[..j])| + 6
    ensures var h := |Stream(ts[..j])|;
      && b[..h] == Stream(ts[..j]) && IndexOf(b, PASTE_START) == h
      && b[h + 6..] + rest == ts[j].content + PASTE_END + Stream(ts[j + 1..])
  {
    hide IsCompleteSequence, Grammatical;
    RestGrammatical(ts, j);
    var done, h := ts[..j], |Stream(ts[..j])|;
    StreamSplit(ts, j);
    var after := ts[j].content + PASTE_END + Stream(ts[j + 1..]);
    StreamOfPaste(ts, j);
    Align(b, rest, Stream(done), PASTE_START + after);
    Align(b[h..], rest, PASTE_START, after);
    assert b[h..][6..] == b[h + 6..] && b[h..][..6] == b[h..h + 6] && b[h..][0] == ESC;
    forall p | 0 <= p < h ensures !OccursAt(b, PASTE_START, p) {
      NoStartIn(done, b[h..], p);
    }
    IndexOfIs(b, PASTE_START, h);
  }

  lemma {:induction false} StreamOfPaste(ts: seq<Token>, j: nat)
    requires j < |ts| && ts[j].Pasted?
    ensures Stream(ts[j..]) == PASTE_START + (ts[j].content + PASTE_END + Stream(ts[j + 1..]))
  {
    assert ts[j..][0] == ts[j] && ts[j..][1..] == ts[j + 1..];
  }

  lemma {:induction false} OpeningAccounts(pending: Option<nat>, ts: seq<Token>, j: nat, n: nat, step: Step)
    requires j < |ts| && n <= |ts[j..]| && ts[j].Pasted? && Accounts(None, ts[j..], step, n)
    ensures Accounts(pending, ts, step.(events := Expected(pending, ts[..j]).events + step.events), j + n)
  {
    ExpectedSplit(pending, ts, j);
    var x := Expected(pending, ts[..j]);
    PasteForgetsPending(x.pending, None, ts[j..]);
    assert ts[j..][n..] == ts[j + n..];
    var later := Expected(step.state.pending, ts[j + n..]);
    assert x.events + (step.events + later.events) == (x.events + step.events) + later.events;
  }

  // ----- Whole streams

  lemma {:induction false} FeedStep(s: State, ts: seq<Token>, chunks: seq<Text>)
    requires Waiting(s, ts, Flatten(chunks)) && forall i :: 0 <= i < |chunks| ==> chunks[i] != []
    ensures var end := Feed(s, chunks); var all := Expected(s.pending, ts);
      end.events == all.events && end.state == State([], false, [], all.pending)
    decreases |chunks|
  {
    hide Process, TextOf, IsCompleteSequence;
    if chunks == [] {
      WaitingForNothing(s, ts);
    } else {
      var k := ChunkStep(s, ts, chunks[0], Flatten(chunks[1..]));
      FeedStep(Process(s, chunks[0]).state, ts[k..], chunks[1..]);
    }
  }

  lemma {:induction false} WaitingForNothing(s: State, ts: seq<Token>)
    requires Waiting(s, ts, [])
    ensures ts == [] && s == State([], false, [], s.pending)
  {
    assert s.pasteBuffer + [] == s.pasteBuffer && s.buffer + [] == s.buffer;
  }

  /** Non-empty chunks of the text of the tokens. */
  ghost predicate Cuts(chunks: seq<Text>, ts: seq<Token>) {
    Flatten(chunks) == Stream(ts) && forall i :: 0 <= i < |chunks| ==> chunks[i] != []
  }

  /** Chunk independence: however the text of a list of tokens is cut into non-empty chunks, the buffer
      emits exactly those tokens in order and ends empty and outside paste mode. */
  lemma {:induction false} ChunkIndependence(ts: seq<Token>, chunks: seq<Text>)
    requires Grammatical(ts) && Cuts(chunks, ts)
    ensures var end := Feed(INITIAL, chunks);
      && end.events == Expected(None, ts).events
      && end.state.buffer == [] && !end.state.pasteMode && end.state.pasteBuffer == []
  {
    hide Grammatical;
    StartWaits(ts, Flatten(chunks));
    FeedStep(INITIAL, ts, chunks);
  }

  // ----- Two escapes before a key that introduces a sequence

  lemma {:induction false} FeedConcat(s: State, a: seq<Text>, b: seq<Text>)
    ensures var x := Feed(s, a); var y := Feed(x.state, b); Feed(s, a + b) == Step(y.state, x.events + y.events)
    decreases |a|
  {
    hide Process;
    if a == [] {
      assert a + b == b;
      var y := Feed(s, b);
      assert [] + y.events == y.events;
    } else {
      assert (a + b)[0] == a[0] && (a + b)[1..] == a[1..] + b;
      var first := Process(s, a[0]);
      FeedConcat(first.state, a[1..], b);
      var x := Feed(first.state, a[1..]);
      Reassociate(first.events, x.events, Feed(x.state, b).events);
    }
  }

  /** A pending Kitty character is printable, so it never suppresses an escape. */
  lemma {:induction false} PendingPrintable(pending: Option<nat>, ts: seq<Token>)
    requires pending.Some? ==> pending.value >= 32
    ensures var p := Expected(pending, ts).pending; p.Some? ==> p.value >= 32
    decreases |ts|
  {
    hide TextOf;
    if ts != [] {
      var first := if ts[0].Pasted? then Emission(None, [Paste(ts[0].content)]) else Emit(pending, TextOf(ts[0]));
      PendingPrintable(first.pending, ts[1..]);
    }
  }

  /** The second escape starts a sequence of its own when the introducing unit arrives with it. */
  lemma {:induction false} TwinSplits(u: Unit)
    requires Introduces(u)
    ensures Extract([ESC, ESC, u]) == Extraction([[ESC]], [ESC, u])
    ensures IndexOf([ESC, ESC, u], PASTE_START) == -1
  {
    var b: Text := [ESC, ESC, u];
    assert b[..1] == [ESC] && b[..2] == [ESC, ESC] && b[1..] == [ESC, u];
    assert FindEnd(b, 1) == 2;
    var c: Text := [ESC, u];
    assert c[..1] == [ESC] && c[..2] == c;
    assert FindEnd(c, 1) == 3;
    assert Extract(c) == Extraction([], c);
  }

  lemma {:induction false} TwinStep(s: State, u: Unit)
    requires Introduces(u) && s.buffer == [] && !s.pasteMode && (s.pending.Some? ==> s.pending.value >= 32)
    ensures Process(s, [ESC, ESC, u]).events == [Data([ESC])]
  {
    hide Extract, IndexOf;
    TwinSplits(u);
    assert s.buffer + [ESC, ESC, u] == [ESC, ESC, u];
    var one: seq<Text> := [[ESC]];
    assert one[1..] == [] && EmitAll(KittyCodepoint([ESC]), []) == Emission(KittyCodepoint([ESC]), []);
    assert [Data([ESC])] + [] == [Data([ESC])];
  }

  /** The first place where two escapes meet an introducing unit. */
  lemma {:induction false} FirstTwin(ts: seq<Token>) returns (i: nat)
    requires !Separated(ts)
    ensures i + 1 < |ts| && !Separate(ts, i) && Separated(ts[..i + 1])
  {
    var n := |ts| - 1;
    var init := ts[..n];
    if Separated(init) {
      i := n - 1;
      forall k | 0 <= k < n - 1 ensures Separate(ts, k) { assert Separate(init, k); }
    } else {
      i := FirstTwin(init);
      assert init[..i + 1] == ts[..i + 1];
    }
  }

  /** No chunk for no text. */
  function Whole(text: Text): seq<Text> { if text == [] then [] else [text] }

  lemma {:induction false} WholeFlattens(text: Text)
    ensures Flatten(Whole(text)) == text
  {
    assert text != [] ==> [text][1..] == [] && text + [] == text;
  }

  /** If two escapes are followed by such a unit, some chunking does not deliver the tokens. */
  lemma {:induction false} TwinMisread(ts: seq<Token>) returns (chunks: seq<Text>)
    requires AllWellFormed(ts) && !Separated(ts)
    ensures Cuts(chunks, ts) && Feed(INITIAL, chunks).events != Expected(None, ts).events
  {
    hide WellFormed, Feed, Expected, Stream, Flatten, Separated;
    var i := FirstTwin(ts);
    var u := TwinShape(ts, i);
    var before, after := Whole(Stream(ts[..i])), Whole(Stream(ts[i + 2..]));
    chunks := before + ([[ESC, ESC, u]] + after);
    TwinCuts(ts, i, u);
    BeforeTwin(ts, i);
    FeedConcat(INITIAL, before, [[ESC, ESC, u]] + after);
    var x := Feed(INITIAL, before);
    TwinFed(x.state, u, after);
    TwinExpected(ts, i);
    var y := Feed(x.state, [[ESC, ESC, u]] + after);
    assert (x.events + y.events)[|x.events|] == y.events[0];
  }

  lemma {:induction false} TwinShape(ts: seq<Token>, i: nat) returns (u: Unit)
    requires AllWellFormed(ts) && i + 1 < |ts| && !Separate(ts, i)
    ensures ts[i] == Escape(TWIN) && ts[i + 1] == Key(u) && Introduces(u)
  {
    hide IsCompleteSequence;
    assert WellFormed(ts[i + 1]);
    u := TextOf(ts[i + 1])[0];
  }

  lemma {:induction false} TwinCuts(ts: seq<Token>, i: nat, u: Unit)
    requires i + 1 < |ts| && ts[i] == Escape(TWIN) && ts[i + 1] == Key(u)
    ensures Cuts(Whole(Stream(ts[..i])) + ([[ESC, ESC, u]] + Whole(Stream(ts[i + 2..]))), ts)
  {
    hide Stream, Flatten;
    var before, after := Stream(ts[..i]), Stream(ts[i + 2..]);
    var mid: seq<Text> := [[ESC, ESC, u]];
    StreamSplit(ts, i);
    assert ts[i..][..2] == [Escape(TWIN), Key(u)] && ts[i..][2..] == ts[i + 2..];
    StreamSplit(ts[i..], 2);
    TwinStream(u);
    WholeFlattens(before);
    WholeFlattens(after);
    assert Whole([ESC, ESC, u]) == mid;
    WholeFlattens([ESC, ESC, u]);
    FlattenConcat(mid, Whole(after));
    FlattenConcat(Whole(before), mid + Whole(after));
  }

  lemma {:induction false} TwinStream(u: Unit)
    ensures Stream([Escape(TWIN), Key(u)]) == [ESC, ESC, u]
  {
    var two := [Escape(TWIN), Key(u)];
    assert two[1..] == [Key(u)] && [Key(u)][1..] == [] && Stream([Key(u)]) == [u];
  }

  lemma {:induction false} BeforeTwin(ts: seq<Token>, i: nat)
    requires AllWellFormed(ts) && i + 1 < |ts| && Separated(ts[..i + 1])
    ensures var x := Feed(INITIAL, Whole(Stream(ts[..i]))); var e := Expected(None, ts[..i]);
      && x.events == e.events && x.state == State([], false, [], e.pending)
      && (e.pending.Some? ==> e.pending.value >= 32)
  {
    hide WellFormed, Feed, Expected, Stream, Flatten;
    var p := ts[..i + 1];
    assert Grammatical(p);
    RestGrammatical(p, i);
    assert p[..i] == ts[..i];
    WholeFlattens(Stream(ts[..i]));
    StartWaits(ts[..i], Stream(ts[..i]));
    FeedStep(INITIAL, ts[..i], Whole(Stream(ts[..i])));
    PendingPrintable(None, ts[..i]);
  }

  lemma {:induction false} TwinFed(s: State, u: Unit, after: seq<Text>)
    requires Introduces(u) && s.buffer == [] && !s.pasteMode && (s.pending.Some? ==> s.pending.value >= 32)
    ensures var y := Feed(s, [[ESC, ESC, u]] + after); y.events != [] && y.events[0] == Data([ESC])
  {
    hide Process;
    TwinStep(s, u);
    assert ([[ESC, ESC, u]] + after)[0] == [ESC, ESC, u];
  }

  lemma {:induction false} TwinExpected(ts: seq<Token>, i: nat)
    requires i < |ts| && ts[i] == Escape(TWIN)
    ensures var n := |Expected(None, ts[..i]).events|; var all := Expected(None, ts).events;
      n < |all| && all[n] == Data(TWIN)
  {
    hide TextOf;
    ExpectedSplit(None, ts, i);
    assert ts[i..][0] == ts[i];
    assert TextOf(Escape(TWIN)) == TWIN by { TextOfTwin(); }
  }

  lemma {:induction false} TextOfTwin()
    ensures TextOf(Escape(TWIN)) == TWIN
  {
  }

  /** Exactly which token lists are delivered however they are cut: those in which two escapes are not
      followed by a unit that introduces a sequence. */
  lemma {:induction false} ChunkIndependenceExact(ts: seq<Token>)
    requires AllWellFormed(ts)
    ensures Separated(ts) <==>
      forall chunks :: Cuts(chunks, ts) ==> Feed(INITIAL, chunks).events == Expected(None, ts).events
  {
    hide WellFormed, Feed, Expected, Cuts, Separated;
    if Separated(ts) {
      forall chunks | Cuts(chunks, ts) ensures Feed(INITIAL, chunks).events == Expected(None, ts).events {
        ChunkIndependence(ts, chunks);
      }
    } else {
      var chunks := TwinMisread(ts);
    }
  }

  // ----- Outside the grammar

  /** An empty chunk reports empty input exactly when nothing is buffered, in paste mode too, and
      otherwise does nothing. */
  lemma {:induction false} EmptyChunk(s: State)
    requires s.buffer != [] ==> !s.pasteMode && Unfinished(s.buffer) && IndexOf(s.buffer, PASTE_START) == -1
    ensures Process(s, []).events == (if s.buffer == [] then [Data([])] else [])
    ensures Process(s, []).state == if s.buffer == [] then s.(pending := None) else s
  {
    assert s.buffer + [] == s.buffer;
    if s.buffer != [] {
      UnfinishedEnd(s.buffer);
    }
  }

  /** Extraction loses nothing: the sequences and the remainder are the text, whatever the text. */
  lemma {:induction false} ExtractKeepsAll(x: Text)
    ensures Flatten(Extract(x).sequences) + Extract(x).remainder == x
    decreases |x|
  {
    hide IsCompleteSequence, FindEnd, Flatten;
    NothingFlattens();
    if x != [] {
      if x[0] != ESC {
        ExtractKeepsAll(x[1..]);
        FirstFlattens(x, 1, Extract(x[1..]));
        assert x[..1] == [x[0]];
      } else {
        var end := FindEnd(x, 1);
        if end <= |x| {
          var n := if DoubleEscape(x, end) then 1 else end;
          ExtractKeepsAll(x[n..]);
          FirstFlattens(x, n, Extract(x[n..]));
        }
      }
    }
  }

  lemma {:induction false} NothingFlattens()
    ensures Flatten<Unit>([]) == []
  {
  }

  lemma {:induction false} FirstFlattens(x: Text, n: nat, e: Extraction)
    requires n <= |x| && Flatten(e.sequences) + e.remainder == x[n..]
    ensures Flatten([x[..n]] + e.sequences) + e.remainder == x
  {
    assert ([x[..n]] + e.sequences)[1..] == e.sequences;
    assert x == x[..n] + x[n..];
    Reassociate(x[..n], Flatten(e.sequences), e.remainder);
  }

  /** A paste that starts at `h` of the joined text, in any state and with any chunk: what comes before it
      is emitted as far as it is complete, and an unfinished sequence directly before it is neither
      emitted nor kept. So nothing is lost if and only if there is none. */
  lemma {:induction false} LostBeforePaste(s: State, chunk: Text)
    requires !s.pasteMode && IndexOf(s.buffer + chunk, PASTE_START) != -1
    ensures var b := s.buffer + chunk; var h := IndexOf(b, PASTE_START); var x := Extract(b[..h]);
      && Process(s, chunk).events
         == EmitAll(s.pending, x.sequences).events + ClosePaste(b[h + |PASTE_START|..], None).events
      && Process(s, chunk).state == ClosePaste(b[h + |PASTE_START|..], None).state
      && Flatten(x.sequences) + x.remainder == b[..h]
      && (Flatten(x.sequences) == b[..h] <==> x.remainder == [])
  {
    hide Extract, EmitAll, ClosePaste, IndexOf;
    var b := s.buffer + chunk;
    ExtractKeepsAll(b[..IndexOf(b, PASTE_START)]);
    if chunk == [] && s.buffer == [] { NoStartInNothing(); }
  }

  lemma {:induction false} NoStartInNothing()
    ensures IndexOf([], PASTE_START) == -1
  {
  }

  /** Such as an ESC [ that the marker follows. */
  lemma {:induction false} FragmentLost()
    ensures Process(State([ESC, 0x5b], false, [], None), PASTE_START) == Step(State([], true, [], None), [])
  {
    var q: Text := [ESC, 0x5b];
    var b := q + PASTE_START;
    assert q[..1] == [ESC] && q[..2] == q;
    assert FindEnd(q, 1) == 3 && Extract(q) == Extraction([], q);
    assert b[2..8] == PASTE_START && b[0..6][1] == 0x5b && b[0..6][2] == ESC && b[1..7][0] == 0x5b;
    IndexOfIs(b, PASTE_START, 2);
    assert b[..2] == q && b[8..] == [];
    assert IndexOf<Unit>([], PASTE_END) == -1;
  }

  /** One text, two chunkings, different events: two escapes and `[A`. */
  lemma {:induction false} DoubleEscapeDependsOnChunks()
    ensures var ts := [Escape(TWIN), Key(0x5b), Key(0x41)];
      var together: seq<Text> := [[ESC, ESC, 0x5b], [0x41]]; var apart: seq<Text> := [[ESC, ESC], [0x5b, 0x41]];
      && Flatten(together) == Flatten(apart) == Stream(ts)
      && Feed(INITIAL, together).events == [Data([ESC]), Data([ESC, 0x5b, 0x41])]
      && Feed(INITIAL, apart).events == [Data(TWIN), Data([0x5b]), Data([0x41])]
  {
    hide Process, Flatten;
    var together: seq<Text> := [[ESC, ESC, 0x5b], [0x41]];
    var apart: seq<Text> := [[ESC, ESC], [0x5b, 0x41]];
    FlattenTwo([ESC, ESC, 0x5b], [0x41]);
    FlattenTwo([ESC, ESC], [0x5b, 0x41]);
    var ts := [Escape(TWIN), Key(0x5b), Key(0x41)];
    assert ts[1..] == [Key(0x5b), Key(0x41)] && ts[1..][1..] == [Key(0x41)] && [Key(0x41)][1..] == [];
    assert Stream([Key(0x41)]) == [0x41] && Stream(ts[1..]) == [0x5b, 0x41];
    TogetherFed();
    ApartFed();
    FeedTwo(INITIAL, [ESC, ESC, 0x5b], [0x41]);
    FeedTwo(INITIAL, [ESC, ESC], [0x5b, 0x41]);
  }

  lemma {:induction false} FlattenTwo(a: Text, b: Text)
    ensures Flatten([a, b]) == a + b
  {
    assert [a, b][1..] == [b] && [b][1..] == [] && b + [] == b;
    assert Flatten([b]) == b;
  }

  lemma {:induction false} FeedTwo(s: State, a: Text, b: Text)
    ensures var x := Process(s, a); var y := Process(x.state, b); Feed(s, [a, b]).events == x.events + y.events
  {
    hide Process;
    assert [a, b][1..] == [b] && [b][1..] == [];
    var x := Process(s, a);
    var y := Process(x.state, b);
    assert Feed(y.state, []).events == [] && y.events + [] == y.events;
    assert Feed(x.state, [b]).events == y.events;
  }

  function Datas(sequences: seq<Text>): seq<Event> {
    seq(|sequences|, i requires 0 <= i < |sequences| => Data(sequences[i]))
  }

  /** Sequences too short for a Kitty key are emitted as they are. */
  lemma {:induction false} EmitShort(sequences: seq<Text>)
    requires forall i :: 0 <= i < |sequences| ==> |sequences[i]| < 4
    ensures EmitAll(None, sequences) == Emission(None, Datas(sequences))
    decreases |sequences|
  {
    if sequences != [] {
      EmitShort(sequences[1..]);
      assert Datas(sequences) == [Data(sequences[0])] + Datas(sequences[1..]);
    }
  }

  lemma {:induction false} ShortStep(buffer: Text, data: Text)
    requires data != [] && |buffer + data| < 4
    requires forall i :: 0 <= i < |Extract(buffer + data).sequences| ==> |Extract(buffer + data).sequences[i]| < 4
    ensures var x := Extract(buffer + data);
      Process(State(buffer, false, [], None), data) == Step(State(x.remainder, false, [], None), Datas(x.sequences))
  {
    hide Extract, EmitAll;
    EmitShort(Extract(buffer + data).sequences);
  }

  const HELD := State([ESC, 0x5b], false, [], None)

  lemma {:induction false} TogetherFed()
    ensures Process(INITIAL, [ESC, ESC, 0x5b]) == Step(HELD, [Data([ESC])])
    ensures Process(HELD, [0x41]) == Step(INITIAL, [Data([ESC, 0x5b, 0x41])])
  {
    hide Process, Extract, IsCompleteSequence;
    TwinSplits(0x5b);
    ArrowExtracted();
    var b: Text := [ESC, 0x5b, 0x41];
    assert [] + [ESC, ESC, 0x5b] == [ESC, ESC, 0x5b] && [ESC, 0x5b] + [0x41] == b;
    ShortStep([], [ESC, ESC, 0x5b]);
    ShortStep([ESC, 0x5b], [0x41]);
    assert Datas([[ESC]]) == [Data([ESC])] && Datas([b]) == [Data(b)];
  }

  lemma {:induction false} ArrowExtracted()
    ensures Extract([ESC, 0x5b, 0x41]) == Extraction([[ESC, 0x5b, 0x41]], [])
  {
    hide IsSgrMouse;
    var b: Text := [ESC, 0x5b, 0x41];
    assert b[..1] == [ESC] && b[..2] == [ESC, 0x5b] && b[..3] == b && b[3..] == [] && b[2..] == [0x41];
    assert IsCompleteSequence([ESC, 0x5b]) == Incomplete && IsCompleteSequence(b) == Complete;
    assert FindEnd(b, 1) == 3;
  }

  lemma {:induction false} ApartFed()
    ensures Process(INITIAL, [ESC, ESC]) == Step(INITIAL, [Data(TWIN)])
    ensures Process(INITIAL, [0x5b, 0x41]) == Step(INITIAL, [Data([0x5b]), Data([0x41])])
  {
    hide Process;
    var a: Text := [ESC, ESC];
    assert a[..1] == [ESC] && a[..2] == a && a[2..] == [] && [] + a == a;
    assert FindEnd(a, 1) == 2 && Extract(a) == Extraction([a], []);
    var k: Text := [0x5b, 0x41];
    assert k[1..] == [0x41] && k[1..][1..] == [] && [] + k == k;
    assert Extract([0x41]) == Extraction([[0x41]], []) && Extract(k) == Extraction([[0x5b], [0x41]], []);
    ShortStep([], a);
    ShortStep([], k);
    assert Datas([a]) == [Data(a)] && Datas([[0x5b], [0x41]]) == [Data([0x5b]), Data([0x41])];
  }
}
