/** What every field of the rebuilt message is, said of the events alone. */
module ProxyBlocks {
  import opened AnsiText
  import opened Basics
  import opened Proxy
  import opened Strings

  // ----- Lines and payloads

  function WithNewlines(lines: seq<string>): seq<string> {
    seq(|lines|, i requires 0 <= i < |lines| => lines[i] + "\n")
  }

  lemma {:induction false} JoinedLines(parts: seq<string>)
    requires parts != []
    ensures var n := |parts| - 1; Join(parts, '\n') == Flatten(WithNewlines(parts[..n])) + parts[n]
    decreases |parts|
  {
    hide Flatten;
    var n := |parts| - 1;
    if n == 0 {
      assert WithNewlines(parts[..0]) == [];
      NoLines();
    } else {
      JoinedLines(parts[1..]);
      var w := WithNewlines(parts[1..][..n - 1]);
      assert WithNewlines(parts[..n]) == [parts[0] + "\n"] + w;
      FirstLine(parts[0] + "\n", w);
      Reassociate(parts[0] + "\n", Flatten(w), parts[n]);
    }
  }

  lemma {:induction false} NoLines()
    ensures Flatten<char>([]) == ""
  {
  }

  lemma {:induction false} FirstLine(line: string, rest: seq<string>)
    ensures Flatten([line] + rest) == line + Flatten(rest)
  {
    assert ([line] + rest)[1..] == rest;
  }

  /** A text is its lines, each with its newline, and the unfinished line; none of them holds a newline. */
  lemma {:induction false} LinesExactly(text: string)
    ensures text == Flatten(WithNewlines(Lines(text))) + Unfinished(text)
    ensures '\n' !in Unfinished(text) && forall i :: 0 <= i < |Lines(text)| ==> '\n' !in Lines(text)[i]
  {
    hide Split, Join, Flatten;
    JoinSplit(text, '\n');
    SplitParts(text, '\n');
    JoinedLines(Split(text, '\n'));
  }

  predicate Blank(s: string) { forall i :: 0 <= i < |s| ==> IsSpaceChar(s[i]) }

  lemma {:induction false} TrimmedStart(s: string) returns (a: string)
    ensures s == a + TrimStart(s) && Blank(a)
    ensures TrimStart(s) != "" ==> !IsSpaceChar(TrimStart(s)[0])
    ensures s != "" && !IsSpaceChar(s[|s| - 1]) ==> TrimStart(s) != "" && TrimStart(s)[|TrimStart(s)| - 1] == s[|s| - 1]
    decreases |s|
  {
    if s != "" && IsSpaceChar(s[0]) {
      a := TrimmedStart(s[1..]);
      a := [s[0]] + a;
    } else {
      a := "";
    }
  }

  /** Trimming takes the whitespace off both ends and nothing else. */
  lemma {:induction false} TrimExactly(s: string) returns (a: string, b: string)
    ensures IsTrimmed(s, a, Trim(s), b)
    decreases |s|
  {
    hide IsSpaceChar, TrimStart;
    if s != "" && IsSpaceChar(s[|s| - 1]) {
      a, b := TrimExactly(s[..|s| - 1]);
      b := TrimmedMore(s, a, Trim(s[..|s| - 1]), b);
    } else {
      a := TrimmedStart(s);
      b := "";
    }
  }

  /** The text `t` between whitespace. */
  predicate IsTrimmed(s: string, a: string, t: string, b: string) {
    && s == a + t + b && Blank(a) && Blank(b) && (t != "" ==> !IsSpaceChar(t[0]) && !IsSpaceChar(t[|t| - 1]))
  }

  lemma {:induction false} TrimmedMore(s: string, a: string, t: string, b: string) returns (b': string)
    requires s != "" && IsSpaceChar(s[|s| - 1]) && IsTrimmed(s[..|s| - 1], a, t, b)
    ensures IsTrimmed(s, a, t, b')
  {
    hide IsSpaceChar;
    var c := [s[|s| - 1]];
    b' := b + c;
    assert s == s[..|s| - 1] + c;
    Reassociate(a + t, b, c);
  }

  /** A line carries a payload exactly if it begins with `data: ` and something but whitespace follows. */
  lemma {:induction false} PayloadExactly(line: string)
    ensures DataOf(line) != [] <==> exists rest :: line == "data: " + rest && !Blank(rest)
    ensures DataOf(line) != [] ==> |line| >= 6 && DataOf(line) == [Trim(line[6..])]
  {
    hide IsSpaceChar, Trim;
    if |line| >= 6 {
      var a, b := TrimExactly(line[6..]);
      assert StartsWith(line, DATA) ==> line == "data: " + line[6..];
      if Trim(line[6..]) != "" {
        var t := Trim(line[6..]);
        assert line[6..][|a|] == t[0];
      }
    }
    if rest :| line == "data: " + rest && !Blank(rest) {
      assert line[..6] == "data: " && line[6..] == rest;
    }
  }

  // ----- Looking back over events

  predicate IsDelta(e: ProxyEvent, index: nat) { e.Delta? && e.index == index }
  predicate IsEnd(e: ProxyEvent, kind: Kind, index: nat) { e.BlockEnd? && e.kind == kind && e.index == index }
  predicate IsLast(e: ProxyEvent) { e.Done? || e.Failed? }

  /** The last event of a sort, or -1. */
  function Last(es: seq<ProxyEvent>, sort: ProxyEvent -> bool): (k: int)
    ensures -1 <= k < |es| && (k >= 0 ==> sort(es[k]))
    ensures forall j :: k < j < |es| ==> !sort(es[j])
  {
    if es == [] then -1 else if sort(es[|es| - 1]) then |es| - 1 else Last(es[..|es| - 1], sort)
  }

  lemma {:induction false} LastSnoc(es: seq<ProxyEvent>, e: ProxyEvent, sort: ProxyEvent -> bool)
    ensures Last(es + [e], sort) == if sort(e) then |es| else Last(es, sort)
  {
    assert (es + [e])[..|es|] == es;
  }

  function LastDelta(es: seq<ProxyEvent>, index: nat): int { Last(es, e => IsDelta(e, index)) }
  function LastEnd(es: seq<ProxyEvent>, kind: Kind, index: nat): int { Last(es, e => IsEnd(e, kind, index)) }

  lemma {:induction false} LastsSnoc(es: seq<ProxyEvent>, e: ProxyEvent, kind: Kind, index: nat)
    ensures LastDelta(es + [e], index) == if IsDelta(e, index) then |es| else LastDelta(es, index)
    ensures LastEnd(es + [e], kind, index) == if IsEnd(e, kind, index) then |es| else LastEnd(es, kind, index)
  {
    LastSnoc(es, e, e => IsDelta(e, index));
    LastSnoc(es, e, e => IsEnd(e, kind, index));
  }

  // ----- One block

  /** Text appended to a property that is gone, which reads "undefined". */
  function Append(gone: bool, text: string): string { if gone then "undefined" + text else text }

  /** The JSON text of a tool call: the deltas since it was last ended, appended to what is left then. */
  function Json(es: seq<ProxyEvent>, index: nat): string {
    var t := LastEnd(es, Tool, index);
    Append(t >= 0, DeltaText(es[t + 1..], index))
  }

  lemma {:induction false} AppendMore(gone: bool, a: string, b: string)
    ensures Append(gone, a + b) == Append(gone, a) + b && Append(true, "") == "undefined"
  {
    Reassociate("undefined", a, b);
    assert "undefined" + "" == "undefined";
  }

  /** What the block is that `start` began and on which `since` followed. */
  ghost predicate IsBlock(b: Block, start: ProxyEvent, since: seq<ProxyEvent>, index: nat)
    requires start.BlockStart?
  {
    var d, t, s := LastDelta(since, index), LastEnd(since, Tool, index), LastEnd(since, start.kind, index);
    && b.kind == start.kind && b.id == start.id && b.name == start.name
    && (b.kind != Tool ==>
          && b.text == DeltaText(since, index) && b.parsed == None && !b.ended
          && b.signature == if s >= 0 then since[s].signature else None)
    && (b.kind == Tool ==>
          && (b.ended <==> t > d) && (!b.ended ==> b.text == Json(since, index)) && b.signature == None
          && b.parsed == if d >= 0 then Some(Json(since[..d + 1], index)) else None)
  }

  lemma {:induction false} NoDeltaText(es: seq<ProxyEvent>, index: nat)
    requires forall j :: 0 <= j < |es| ==> !IsDelta(es[j], index)
    ensures DeltaText(es, index) == ""
    decreases |es|
  {
    if es != [] { NoDeltaText(es[..|es| - 1], index); }
  }

  lemma {:induction false} JsonSnoc(es: seq<ProxyEvent>, e: ProxyEvent, index: nat)
    requires !IsEnd(e, Tool, index)
    ensures Json(es + [e], index) == Json(es, index) + Added(e, index)
  {
    hide DeltaText, LastEnd, LastDelta, Added, Append, IsEnd;
    var t := LastEnd(es, Tool, index);
    EndInRange(es, index);
    LastsSnoc(es, e, Tool, index);
    assert (es + [e])[t + 1..] == es[t + 1..] + [e];
    TextSnoc(es[t + 1..], e, index);
    AppendMore(t >= 0, DeltaText(es[t + 1..], index), Added(e, index));
  }

  /** Nothing was added since the last end. */
  lemma {:induction false} JsonGone(es: seq<ProxyEvent>, index: nat)
    requires LastEnd(es, Tool, index) >= LastDelta(es, index) && LastEnd(es, Tool, index) >= 0
    ensures Json(es, index) == Append(true, "")
  {
    hide DeltaText, LastEnd, LastDelta, Append;
    EndInRange(es, index);
    NoneAfter(es, index);
    NoDeltaText(es[LastEnd(es, Tool, index) + 1..], index);
  }

  lemma {:induction false} EndInRange(es: seq<ProxyEvent>, index: nat)
    ensures -1 <= LastEnd(es, Tool, index) < |es|
  {
  }

  lemma {:induction false} NoneAfter(es: seq<ProxyEvent>, index: nat)
    requires LastEnd(es, Tool, index) >= LastDelta(es, index)
    ensures var after := es[LastEnd(es, Tool, index) + 1..];
      forall j :: 0 <= j < |after| ==> !IsDelta(after[j], index)
  {
  }

  lemma {:induction false} StartedBlock(b: Block, start: ProxyEvent, index: nat)
    requires start.BlockStart? && b == Block(start.kind, "", None, start.id, start.name, None, false)
    ensures IsBlock(b, start, [], index)
  {
    assert LastEnd([], Tool, index) == -1;
  }

  /** What one event makes of the block at its index. */
  function Changed(b: Block, e: ProxyEvent, index: nat): Block {
    if IsDelta(e, index) then AddDelta(b, e.delta)
    else if IsEnd(e, b.kind, index) then if b.kind == Tool then b.(ended := true) else b.(signature := e.signature)
    else b
  }

  lemma {:induction false} NextBlock(b: Block, start: ProxyEvent, since: seq<ProxyEvent>, e: ProxyEvent, index: nat)
    requires start.BlockStart? && IsBlock(b, start, since, index) && (IsDelta(e, index) ==> e.kind == b.kind)
    ensures IsBlock(Changed(b, e, index), start, since + [e], index)
  {
    hide DeltaText, Json, Last;
    AppendMore(true, "", "");
    LastsSnoc(since, e, Tool, index);
    LastsSnoc(since, e, start.kind, index);
    TextSnoc(since, e, index);
    if !IsEnd(e, Tool, index) { JsonSnoc(since, e, index); }
    if LastEnd(since, Tool, index) >= LastDelta(since, index) && LastEnd(since, Tool, index) >= 0 {
      JsonGone(since, index);
    }
    var d := LastDelta(since, index);
    assert (since + [e])[..|since| + 1] == since + [e];
    assert d >= 0 ==> (since + [e])[..d + 1] == since[..d + 1];
    var s := LastEnd(since, start.kind, index);
    assert s >= 0 ==> (since + [e])[s] == since[s];
  }

  // ----- The message

  ghost predicate HasBlock(m: Message, es: seq<ProxyEvent>, index: nat) {
    var k := LastStart(es, index);
    if k == -1 then index !in m.content
    else index in m.content && IsBlock(m.content[index], es[k], es[k + 1..], index)
  }

  lemma {:induction false} ChangedAt(m: Message, e: ProxyEvent, index: nat)
    requires !Refused(m, e)
    ensures var r := Apply(m, e);
      if Begins(e, index) then
        index in r.content && r.content[index] == Block(e.kind, "", None, e.id, e.name, None, false)
      else
        && (index in r.content <==> index in m.content)
        && (index in m.content ==>
              r.content[index] == Changed(m.content[index], e, index)
              && (IsDelta(e, index) ==> e.kind == m.content[index].kind))
  {
  }

  lemma {:induction false} NextHas(m: Message, es: seq<ProxyEvent>, e: ProxyEvent, index: nat)
    requires HasBlock(m, es, index) && !Refused(m, e)
    ensures HasBlock(Apply(m, e), es + [e], index)
  {
    hide Refused, Apply, IsBlock, Changed, LastStart;
    StartSnoc(es, e, index);
    ChangedAt(m, e, index);
    var k := LastStart(es, index);
    if Begins(e, index) {
      assert (es + [e])[|es| + 1..] == [];
      StartedBlock(Apply(m, e).content[index], e, index);
    } else if k >= 0 {
      NextSince(m, es, e, index, k);
    }
  }

  lemma {:induction false} NextSince(m: Message, es: seq<ProxyEvent>, e: ProxyEvent, index: nat, k: nat)
    requires k < |es| && es[k].BlockStart? && !Begins(e, index) && !Refused(m, e) && index in m.content
    requires IsBlock(m.content[index], es[k], es[k + 1..], index)
    ensures var r := Apply(m, e);
      && index in r.content
      && IsBlock(r.content[index], (es + [e])[k], (es + [e])[k + 1..], index)
  {
    hide Refused, Apply, IsBlock, Changed;
    ChangedAt(m, e, index);
    assert (es + [e])[k + 1..] == es[k + 1..] + [e];
    NextBlock(m.content[index], es[k], es[k + 1..], e, index);
  }

  /** The events the application is told: all but those of an unknown kind and ends of tool calls that are
      none. */
  function Heard(es: seq<ProxyEvent>): seq<ProxyEvent> {
    if es == [] then [] else
      var init, e := es[..|es| - 1], es[|es| - 1];
      Heard(init) + (if e.Unknown? || (e.BlockEnd? && KindAt(init, e.index) != Some(e.kind)) then [] else [e])
  }

  function ToldEvents(told: seq<Out>): seq<ProxyEvent> {
    if told == [] then [] else
      ToldEvents(told[..|told| - 1]) + (if told[|told| - 1].Out? then [told[|told| - 1].event] else [])
  }

  /** How the message ended: the last end event says, and before one it is as at the start. */
  predicate EndsAs(m: Message, es: seq<ProxyEvent>) {
    var k := Last(es, e => IsLast(e));
    if k == -1 then m.stopReason == EMPTY.stopReason && m.usage == EMPTY.usage
    else m.stopReason == es[k].reason && m.usage == es[k].usage && (es[k].Failed? ==> m.errorMessage == es[k].message)
  }

  /** Every field of every block, how the message ended, and what the application was told. */
  ghost predicate Whole(c: Client, es: seq<ProxyEvent>) {
    (forall index :: HasBlock(c.message, es, index)) && EndsAs(c.message, es) && ToldEvents(c.told) == Heard(es)
  }

  lemma {:induction false} NextWhole(c: Client, es: seq<ProxyEvent>, e: ProxyEvent)
    requires Whole(c, es) && c.failure.None? && Accept(c, Parsed(e)).failure.None?
    ensures Whole(Accept(c, Parsed(e)), es + [e])
  {
    hide Refused, Apply, Told, HasBlock, EndsAs, Heard, ToldEvents;
    forall index ensures HasBlock(Apply(c.message, e), es + [e], index) { NextHas(c.message, es, e, index); }
    NextEnds(c.message, es, e);
    NextTold(c, es, e);
  }

  lemma {:induction false} FitsBefore(es: seq<ProxyEvent>)
    requires AllFit(es) && es != []
    ensures AllFit(es[..|es| - 1])
  {
    var init := es[..|es| - 1];
    hide Fits;
    forall j | 0 <= j < |init| ensures Fits(init[..j], init[j]) {
      assert init[..j] == es[..j] && Fits(es[..j], es[j]);
    }
  }

  /** The whole message after events that are accepted, tool calls included. */
  lemma {:induction false} RebuiltWhole(es: seq<ProxyEvent>)
    requires AllFit(es)
    ensures Whole(ApplyAll(EMPTY, es), es)
    decreases |es|
  {
    hide Accept, Whole, AllFit, BlockIs;
    Rebuilt(es);
    if es == [] {
      NothingRebuilt();
    } else {
      var n := |es| - 1;
      FitsBefore(es);
      RebuiltWhole(es[..n]);
      Rebuilt(es[..n]);
      assert es == es[..n] + [es[n]];
      NextWhole(ApplyAll(EMPTY, es[..n]), es[..n], es[n]);
    }
  }

  lemma {:induction false} NothingRebuilt()
    ensures Whole(Client(EMPTY, [], None), [])
  {
  }

  lemma {:induction false} OutcomeOf(m: Message, e: ProxyEvent)
    requires !Refused(m, e)
    ensures var r := Apply(m, e);
      if IsLast(e) then r.stopReason == e.reason && r.usage == e.usage && (e.Failed? ==> r.errorMessage == e.message)
      else r.stopReason == m.stopReason && r.usage == m.usage && r.errorMessage == m.errorMessage
  {
    hide AddDelta, Holds;
  }

  lemma {:induction false} NextEnds(m: Message, es: seq<ProxyEvent>, e: ProxyEvent)
    requires EndsAs(m, es) && !Refused(m, e)
    ensures EndsAs(Apply(m, e), es + [e])
  {
    hide Apply, Refused, Last;
    OutcomeOf(m, e);
    LastSnoc(es, e, e => IsLast(e));
  }

  lemma {:induction false} NextTold(c: Client, es: seq<ProxyEvent>, e: ProxyEvent)
    requires ToldEvents(c.told) == Heard(es) && !Refused(c.message, e)
    requires (forall index :: HasBlock(c.message, es, index))
    ensures ToldEvents(c.told + Told(c.message, e)) == Heard(es + [e])
  {
    hide LastStart, IsBlock, Refused;
    assert (es + [e])[..|es|] == es;
    var told := Told(c.message, e);
    if e.BlockEnd? { assert HasBlock(c.message, es, e.index); KindHeld(c.message, es, e.index); }
    if told == [] {
      assert c.told + told == c.told;
    } else {
      assert (c.told + told)[..|c.told|] == c.told;
    }
  }

  lemma {:induction false} KindHeld(m: Message, es: seq<ProxyEvent>, index: nat)
    requires HasBlock(m, es, index)
    ensures KindAt(es, index) == if index in m.content then Some(m.content[index].kind) else None
  {
  }

  /** A stream is read up to the first event that does not fit: the message and what was told are those of
      the events before it, and its complaint is the failure. */
  lemma {:induction false} StopsAtMisfit(es: seq<ProxyEvent>, k: nat)
    requires k < |es| && AllFit(es[..k]) && !Fits(es[..k], es[k])
    ensures var before := ApplyAll(EMPTY, es[..k]);
      && before.failure.None?
      && ApplyAll(EMPTY, es) == Client(before.message, before.told, Some(Complaint(es[k])))
    decreases |es|
  {
    hide Refused, Apply, Told, BlockIs, Fits, AllFit, Complaint, KindAt;
    var n := |es| - 1;
    Rebuilt(es[..k]);
    Misfit(es[..k], es[k]);
    if k == n {
      RefusedIs(ApplyAll(EMPTY, es[..k]).message, es[..k], es[k]);
    } else {
      assert es[..n][..k] == es[..k];
      StopsAtMisfit(es[..n], k);
    }
  }

  lemma {:induction false} Misfit(es: seq<ProxyEvent>, e: ProxyEvent)
    requires !Fits(es, e)
    ensures e.Delta? || (e.BlockEnd? && e.kind != Tool)
  {
  }

  /** A run ends with one error told to the application exactly if the stream failed or was aborted; a
      failure is reported with its own message, an abort only when nothing failed before it. */
  lemma {:induction false} EndsTold(c: Client, aborted: bool)
    ensures var r := Finished(c, aborted);
      && r.message.content == c.message.content && r.message.usage == c.message.usage
      && (c.failure.None? && !aborted <==> r.told == c.told)
      && (c.failure.Some? || aborted ==> r.told == c.told + [StreamError(r.message)])
      && (c.failure.Some? ==> r.message.stopReason == "error" && r.message.errorMessage == c.failure)
      && (c.failure.None? && aborted ==>
            r.message.stopReason == "aborted" && r.message.errorMessage == Some("Request aborted by user"))
  {
    if c.failure.Some? || aborted { assert |Finished(c, aborted).told| == |c.told| + 1; }
  }

  /** In particular a tool call that gets no delta after its end has as its arguments what parsing the
      concatenation of its deltas gives. */
  lemma {:induction false} ToolArguments(es: seq<ProxyEvent>, index: nat)
    requires AllFit(es) && KindAt(es, index) == Some(Tool)
    requires var since := es[LastStart(es, index) + 1..];
      LastDelta(since, index) >= 0
      && forall j :: 0 <= j <= LastDelta(since, index) ==> !IsEnd(since[j], Tool, index)
    ensures var m := ApplyAll(EMPTY, es).message; var since := es[LastStart(es, index) + 1..];
      index in m.content && m.content[index].parsed == Some(DeltaText(since, index))
  {
    hide ApplyAll, LastStart, AllFit, Json, IsBlock, DeltaText, Last, EndsAs, Heard;
    RebuiltWhole(es);
    var m, k := ApplyAll(EMPTY, es).message, LastStart(es, index);
    assert HasBlock(m, es, index);
    ParsedIs(m.content[index], es[k], es[k + 1..], index);
    WholeJson(es[k + 1..], index);
  }

  lemma {:induction false} ParsedIs(b: Block, start: ProxyEvent, since: seq<ProxyEvent>, index: nat)
    requires start.BlockStart? && IsBlock(b, start, since, index) && start.kind == Tool && LastDelta(since, index) >= 0
    ensures b.parsed == Some(Json(since[..LastDelta(since, index) + 1], index))
  {
    hide Json, DeltaText;
  }

  lemma {:induction false} WholeJson(es: seq<ProxyEvent>, index: nat)
    requires LastDelta(es, index) >= 0
    requires forall j :: 0 <= j <= LastDelta(es, index) ==> !IsEnd(es[j], Tool, index)
    ensures Json(es[..LastDelta(es, index) + 1], index) == DeltaText(es, index)
  {
    hide DeltaText;
    UpToDelta(es, index);
    var head := es[..LastDelta(es, index) + 1];
    assert forall j :: 0 <= j < |head| ==> head[j] == es[j];
    assert LastEnd(head, Tool, index) == -1;
    assert head[0..] == head;
  }

  lemma {:induction false} UpToDelta(es: seq<ProxyEvent>, index: nat)
    ensures DeltaText(es, index) == DeltaText(es[..LastDelta(es, index) + 1], index)
    decreases |es|
  {
    if es != [] {
      var n := |es| - 1;
      assert es == es[..n] + [es[n]];
      LastsSnoc(es[..n], es[n], Tool, index);
      if IsDelta(es[n], index) {
        assert es[..|es|] == es;
      } else {
        UpToDelta(es[..n], index);
        assert es[..n][..LastDelta(es, index) + 1] == es[..LastDelta(es, index) + 1];
        assert DeltaText(es[..n], index) + "" == DeltaText(es[..n], index);
      }
    }
  }
}
