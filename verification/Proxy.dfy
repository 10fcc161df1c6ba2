/** The client side of the proxy: events are found in any chunking of the stream, and the message is
    rebuilt from events that do not carry it. */
module Proxy {
  import opened Basics
  import opened Strings
  import opened AnsiText

  // ----- Lines

  /** The newline-terminated lines of a text, and what follows the last newline. */
  function Lines(text: string): seq<string> { var p := Split(text, '\n'); p[..|p| - 1] }
  function Unfinished(text: string): string { var p := Split(text, '\n'); p[|p| - 1] }

  /** Where the unfinished last line begins. */
  function TailStart(text: string): (k: nat)
    ensures k <= |text| && '\n' !in text[k..] && (k > 0 ==> text[k - 1] == '\n')
  {
    if text == "" || text[|text| - 1] == '\n' then |text| else
      var init := text[..|text| - 1];
      var k := TailStart(init);
      assert text[k..] == init[k..] + [text[|text| - 1]];
      k
  }

  /** Reading on after a chunk: only the unfinished line matters. */
  lemma {:induction false} ReadOn(a: string, b: string)
    ensures Lines(a + b) == Lines(a) + Lines(Unfinished(a) + b)
    ensures Unfinished(a + b) == Unfinished(Unfinished(a) + b)
  {
    hide Split;
    var k := TailStart(a);
    var t := a[k..];
    SplitWhole(t, '\n');
    if k == 0 {
      assert a == t;
    } else {
      var x := a[..k - 1];
      assert a == x + ['\n'] + t && a + b == x + ['\n'] + (t + b);
      SplitConcat(x, '\n', t);
      SplitConcat(x, '\n', t + b);
    }
  }

  function TrimStart(s: string): string { if s != "" && IsSpaceChar(s[0]) then TrimStart(s[1..]) else s }

  function Trim(s: string): string {
    if s != "" && IsSpaceChar(s[|s| - 1]) then Trim(s[..|s| - 1]) else TrimStart(s)
  }

  const DATA := "data: "

  /** The payload of a line, if it carries one. */
  function DataOf(line: string): seq<string> {
    if StartsWith(line, DATA) && Trim(line[6..]) != "" then [Trim(line[6..])] else []
  }

  function Datas(lines: seq<string>): seq<string> {
    if lines == [] then [] else DataOf(lines[0]) + Datas(lines[1..])
  }

  lemma {:induction false} DatasConcat(a: seq<string>, b: seq<string>)
    ensures Datas(a + b) == Datas(a) + Datas(b)
  {
    hide DataOf;
    if a == [] {
      assert a + b == b;
    } else {
      assert (a + b)[0] == a[0] && (a + b)[1..] == a[1..] + b;
      DatasConcat(a[1..], b);
    }
  }

  // ----- Rebuilding the message

  datatype Kind = Text | Thinking | Tool

  datatype ProxyEvent =
    | Start
    | BlockStart(kind: Kind, index: nat, id: string, name: string)
    | Delta(kind: Kind, index: nat, delta: string)
    | BlockEnd(kind: Kind, index: nat, signature: Option<string>)
    | Done(reason: string, usage: string)
    | Failed(reason: string, message: Option<string>, usage: string)
    | Unknown

  /** One block of content. For a tool call `text` is the partial JSON, gone once `ended`, and the
      arguments are what parsing `parsed` gives. */
  datatype Block = Block(kind: Kind, text: string, signature: Option<string>, id: string, name: string,
      parsed: Option<string>, ended: bool)

  datatype Message = Message(content: map<nat, Block>, stopReason: string, errorMessage: Option<string>, usage: string)

  const EMPTY := Message(map[], "stop", None, "")

  predicate Holds(m: Message, index: nat, kind: Kind) { index in m.content && m.content[index].kind == kind }

  /** The events that are refused: a delta or an end for a block of another kind. A tool call's end is
      ignored instead. */
  predicate Refused(m: Message, e: ProxyEvent) {
    || (e.Delta? && !Holds(m, e.index, e.kind))
    || (e.BlockEnd? && e.kind != Tool && !Holds(m, e.index, e.kind))
  }

  function AddDelta(b: Block, delta: string): Block {
    if b.kind != Tool then b.(text := b.text + delta) else
      var json := (if b.ended then "undefined" else b.text) + delta;
      b.(text := json, parsed := Some(json), ended := false)
  }

  function Apply(m: Message, e: ProxyEvent): Message
    requires !Refused(m, e)
  {
    match e
    case BlockStart(kind, i, id, name) => m.(content := m.content[i := Block(kind, "", None, id, name, None, false)])
    case Delta(kind, i, d) => m.(content := m.content[i := AddDelta(m.content[i], d)])
    case BlockEnd(kind, i, signature) =>
      if !Holds(m, i, kind) then m
      else if kind == Tool then m.(content := m.content[i := m.content[i].(ended := true)])
      else m.(content := m.content[i := m.content[i].(signature := signature)])
    case Done(reason, usage) => m.(stopReason := reason, usage := usage)
    case Failed(reason, message, usage) => m.(stopReason := reason, errorMessage := message, usage := usage)
    case _ => m
  }

  /** What the application is told: the event, with the whole text for an end. */
  datatype Out = Out(event: ProxyEvent, whole: string) | StreamError(message: Message)

  function Told(m: Message, e: ProxyEvent): seq<Out> {
    if e.Unknown? || (e.BlockEnd? && !Holds(m, e.index, e.kind)) then []
    else [Out(e, if e.BlockEnd? then m.content[e.index].text else "")]
  }

  /** What parsing a payload gives. */
  datatype Parse = Parsed(event: ProxyEvent) | Malformed(message: string)

  /** The state of the client. Once something has failed the rest of the stream is not read. */
  datatype Client = Client(message: Message, told: seq<Out>, failure: Option<string>)

  const FRESH := Client(EMPTY, [], None)

  /** What is thrown for a refused event. */
  function Complaint(e: ProxyEvent): string
    requires e.Delta? || e.BlockEnd?
  {
    var what := if e.Delta? then "_delta for non-" else "_end for non-";
    match e.kind
    case Text => "Received text" + what + "text content"
    case Thinking => "Received thinking" + what + "thinking content"
    case Tool => "Received toolcall" + what + "toolCall content"
  }

  function Accept(c: Client, e: Parse): Client {
    if c.failure.Some? then c
    else if e.Malformed? then c.(failure := Some(e.message))
    else if Refused(c.message, e.event) then c.(failure := Some(Complaint(e.event)))
    else Client(Apply(c.message, e.event), c.told + Told(c.message, e.event), None)
  }

  function AcceptAll(c: Client, datas: seq<string>, parse: string -> Parse): Client
    decreases |datas|
  {
    if datas == [] then c else AcceptAll(Accept(c, parse(datas[0])), datas[1..], parse)
  }

  lemma {:induction false} AcceptConcat(c: Client, a: seq<string>, b: seq<string>, parse: string -> Parse)
    ensures AcceptAll(c, a + b, parse) == AcceptAll(AcceptAll(c, a, parse), b, parse)
    decreases |a|
  {
    hide Accept;
    if a == [] {
      assert a + b == b;
    } else {
      assert (a + b)[0] == a[0] && (a + b)[1..] == a[1..] + b;
      AcceptConcat(Accept(c, parse(a[0])), a[1..], b, parse);
    }
  }

  lemma {:induction false} FailedStays(c: Client, datas: seq<string>, parse: string -> Parse)
    requires c.failure.Some?
    ensures AcceptAll(c, datas, parse) == c
    decreases |datas|
  {
    if datas != [] { FailedStays(c, datas[1..], parse); }
  }

  /** Everything a text says. */
  function ReadAll(text: string, parse: string -> Parse): Client { AcceptAll(FRESH, Datas(Lines(text)), parse) }

  // ----- Reading the stream

  class StreamProxy {
    var content: map<nat, Block>
    var stopReason: string
    var errorMessage: Option<string>
    var usage: string
    var told: seq<Out>
    /** The exception that ended the stream. */
    var failure: Option<string>
    var buffer: string

    function State(): Client
      reads this
    {
      Client(Message(content, stopReason, errorMessage, usage), told, failure)
    }

    constructor ()
      ensures State() == FRESH && buffer == ""
    {
      content, stopReason, errorMessage, usage := map[], "stop", None, "";
      told, failure, buffer := [], None, "";
    }

    /** Changes the message in place for one event, or fails. */
    method ProcessProxyEvent(e: ProxyEvent)
      requires failure.None?
      modifies this`content, this`stopReason, this`errorMessage, this`usage, this`told, this`failure
      ensures State() == Accept(old(State()), Parsed(e))
    {
      match e {
        case Start =>
          told := told + [Out(e, "")];
        case BlockStart(kind, index, id, name) =>
          content := content[index := Block(kind, "", None, id, name, None, false)];
          told := told + [Out(e, "")];
        case Delta(kind, index, delta) =>
          if index in content && content[index].kind == kind {
            AppendDelta(index, delta);
            told := told + [Out(e, "")];
          } else {
            failure := Some(Complaint(e));
          }
        case BlockEnd(kind, index, signature) =>
          if index in content && content[index].kind == kind {
            var block := content[index];
            if kind == Tool {
              content := content[index := block.(ended := true)];
            } else {
              content := content[index := block.(signature := signature)];
            }
            told := told + [Out(e, block.text)];
          } else if kind != Tool {
            failure := Some(Complaint(e));
          }
        case Done(reason, tokens) =>
          stopReason, usage := reason, tokens;
          told := told + [Out(e, "")];
        case Failed(reason, message, tokens) =>
          stopReason, errorMessage, usage := reason, message, tokens;
          told := told + [Out(e, "")];
        case Unknown =>
      }
    }

    method AppendDelta(index: nat, delta: string)
      requires index in content
      modifies this`content
      ensures content == old(content)[index := AddDelta(old(content)[index], delta)]
    {
      var block := content[index];
      if block.kind == Tool {
        // Appending to a deleted property starts from its printed absence.
        var partialJson := if block.ended then "undefined" else block.text;
        partialJson := partialJson + delta;
        content := content[index := block.(text := partialJson, parsed := Some(partialJson), ended := false)];
      } else {
        content := content[index := block.(text := block.text + delta)];
      }
    }

    /** One chunk: its complete lines are taken, the rest waits for the next chunk. */
    method ReadChunk(value: string, parse: string -> Parse)
      requires failure.None?
      modifies this
      ensures State() == AcceptAll(old(State()), Datas(Lines(old(buffer) + value)), parse)
      ensures buffer == Unfinished(old(buffer) + value)
    {
      hide Split, Datas, AcceptAll, Accept, Trim, DataOf, Refused;
      buffer := buffer + value;
      var parts := Split(buffer, '\n');
      var lines := parts[..|parts| - 1];
      buffer := parts[|parts| - 1];
      var k := 0;
      ReadStart(State(), lines, parse);
      while k < |lines| && failure.None?
        invariant 0 <= k <= |lines| && buffer == Unfinished(old(buffer) + value)
        invariant State() == AcceptAll(old(State()), Datas(lines[..k]), parse)
      {
        LineStep(old(State()), lines, k, parse);
        ReadLine(lines[k], parse);
        k := k + 1;
      }
      ReadEnd(old(State()), lines, k, parse);
    }

    /** One complete line. */
    method ReadLine(line: string, parse: string -> Parse)
      requires failure.None?
      modifies this`content, this`stopReason, this`errorMessage, this`usage, this`told, this`failure
      ensures State() == AcceptAll(old(State()), DataOf(line), parse)
    {
      hide AcceptAll, Accept, Trim;
      DataMissing(line, State(), parse);
      if StartsWith(line, DATA) {
        var data := Trim(line[6..]);
        if data != "" {
          AcceptOne(State(), data, parse);
          match parse(data) {
            case Parsed(event) => ProcessProxyEvent(event);
            case Malformed(message) => failure := Some(message);
          }
        }
      }
    }

    /** The whole stream, in whatever chunks it comes. The run is found aborted after `abortAt` chunks,
        if there are that many. */
    method Run(chunks: seq<string>, abortAt: nat, parse: string -> Parse)
      requires State() == FRESH && buffer == ""
      modifies this
      ensures var seen := if abortAt < |chunks| then chunks[..abortAt] else chunks;
        State() == Finished(ReadAll(Flatten(seen), parse), abortAt <= |chunks|)
    {
      hide ReadAll, Lines, Unfinished, Flatten;
      var k := 0;
      NothingRead(chunks, parse);
      while k < |chunks| && k != abortAt && failure.None?
        invariant 0 <= k <= |chunks| && k <= abortAt
        invariant State() == ReadAll(Flatten(chunks[..k]), parse)
        invariant failure.None? ==> buffer == Unfinished(Flatten(chunks[..k]))
      {
        ChunkRead(chunks, k, parse);
        ReadChunk(chunks[k], parse);
        k := k + 1;
      }
      var seen := if abortAt < |chunks| then chunks[..abortAt] else chunks;
      ChunksLeft(chunks, k, if abortAt < |chunks| then abortAt else |chunks|, parse);
      assert chunks[..|chunks|] == chunks;
      Finish(abortAt <= |chunks|);
    }

    /** The same from the bytes of the response, which a decoder turns into text as they come. */
    method RunBytes<S>(chunks: seq<seq<Byte>>, abortAt: nat, put: (S, Byte) -> Decoded<S>, start: S,
        parse: string -> Parse)
      requires State() == FRESH && buffer == ""
      modifies this
      ensures var seen := if abortAt < |chunks| then chunks[..abortAt] else chunks;
        State() == Finished(ReadAll(Decode(put, start, Flatten(seen)).text, parse), abortAt <= |chunks|)
    {
      hide ReadAll, Flatten;
      var texts := DecodeChunks(chunks, put, start);
      Run(texts, abortAt, parse);
      var n := if abortAt < |chunks| then abortAt else |chunks|;
      assert texts[..|texts|] == texts && chunks[..|chunks|] == chunks;
      assert Flatten(texts[..n]) == Decode(put, start, Flatten(chunks[..n])).text;
    }

    /** What is done after the last chunk, or with an exception. */
    method Finish(aborted: bool)
      modifies this`stopReason, this`errorMessage, this`told, this`failure
      ensures State() == Finished(old(State()), aborted)
    {
      var reason := "error";
      if failure.None? && aborted {
        failure, reason := Some(ABORTED), "aborted";
      }
      if failure.Some? {
        stopReason, errorMessage := reason, failure;
        told := told + [StreamError(Message(content, stopReason, errorMessage, usage))];
      }
    }
  }

  type Byte = bv8

  /** A decoder's state, which holds the beginning of a character, and the text it has put out. */
  datatype Decoded<S> = Decoded(state: S, text: string)

  function Decode<S>(put: (S, Byte) -> Decoded<S>, s: S, bytes: seq<Byte>): Decoded<S> {
    if bytes == [] then Decoded(s, "") else
      var init := Decode(put, s, bytes[..|bytes| - 1]);
      var last := put(init.state, bytes[|bytes| - 1]);
      Decoded(last.state, init.text + last.text)
  }

  lemma {:induction false} DecodeConcat<S>(put: (S, Byte) -> Decoded<S>, s: S, a: seq<Byte>, b: seq<Byte>)
    ensures var x := Decode(put, s, a); var y := Decode(put, x.state, b);
      Decode(put, s, a + b) == Decoded(y.state, x.text + y.text)
    decreases |b|
  {
    if b == [] {
      assert a + b == a;
    } else {
      var k := |b| - 1;
      assert (a + b)[..|a| + k] == a + b[..k] && (a + b)[|a| + k] == b[k];
      DecodeConcat(put, s, a, b[..k]);
      var x := Decode(put, s, a);
      var y := Decode(put, x.state, b[..k]);
      Reassociate(x.text, y.text, put(y.state, b[k]).text);
    }
  }

  /** A character that is split between chunks is held by the decoder. */
  method DecodeChunks<S>(chunks: seq<seq<Byte>>, put: (S, Byte) -> Decoded<S>, start: S) returns (texts: seq<string>)
    ensures |texts| == |chunks|
    ensures forall n :: 0 <= n <= |chunks| ==> Flatten(texts[..n]) == Decode(put, start, Flatten(chunks[..n])).text
  {
    hide Flatten;
    texts := [];
    var state := start;
    assert chunks[..0] == [] && texts[..0] == [];
    NothingDecoded(put, start);
    for k := 0 to |chunks|
      invariant |texts| == k && state == Decode(put, start, Flatten(chunks[..k])).state
      invariant forall n :: 0 <= n <= k ==> Flatten(texts[..n]) == Decode(put, start, Flatten(chunks[..n])).text
    {
      var more := Decode(put, state, chunks[k]);
      assert chunks[..k + 1] == chunks[..k] + [chunks[k]] && texts[..k] == texts;
      FlattenSnoc(chunks[..k], chunks[k]);
      FlattenSnoc(texts, more.text);
      DecodeConcat(put, start, Flatten(chunks[..k]), chunks[k]);
      var before := texts;
      texts, state := texts + [more.text], more.state;
      assert texts[..k + 1] == texts && forall n :: 0 <= n <= k ==> texts[..n] == before[..n];
    }
  }

  lemma {:induction false} NothingDecoded<S>(put: (S, Byte) -> Decoded<S>, start: S)
    ensures Decode(put, start, Flatten([])) == Decoded(start, "") && Flatten<char>([]) == ""
  {
  }

  const ABORTED := "Request aborted by user"

  /** A failure, or else an abort, is reported with the message as far as it got. */
  function Finished(c: Client, aborted: bool): Client {
    if c.failure.None? && !aborted then c else
      var why := if c.failure.Some? then c.failure else Some(ABORTED);
      var m := c.message.(stopReason := if c.failure.Some? then "error" else "aborted", errorMessage := why);
      Client(m, c.told + [StreamError(m)], why)
  }

  lemma {:induction false} ReadStart(c: Client, lines: seq<string>, parse: string -> Parse)
    ensures AcceptAll(c, Datas(lines[..0]), parse) == c
  {
    assert lines[..0] == [];
  }

  lemma {:induction false} LineStep(c: Client, lines: seq<string>, k: nat, parse: string -> Parse)
    requires k < |lines|
    ensures AcceptAll(c, Datas(lines[..k + 1]), parse)
      == AcceptAll(AcceptAll(c, Datas(lines[..k]), parse), DataOf(lines[k]), parse)
  {
    hide AcceptAll, DataOf;
    assert lines[..k + 1] == lines[..k] + [lines[k]];
    DatasConcat(lines[..k], [lines[k]]);
    OneLine(lines[k]);
    AcceptConcat(c, Datas(lines[..k]), DataOf(lines[k]), parse);
  }

  lemma {:induction false} OneLine(line: string)
    ensures Datas([line]) == DataOf(line)
  {
    hide DataOf;
    assert [line][1..] == [] && DataOf(line) + [] == DataOf(line);
  }

  lemma {:induction false} DataMissing(line: string, c: Client, parse: string -> Parse)
    ensures !StartsWith(line, DATA) || Trim(line[6..]) == "" ==> AcceptAll(c, DataOf(line), parse) == c
  {
  }

  lemma {:induction false} AcceptOne(c: Client, data: string, parse: string -> Parse)
    ensures AcceptAll(c, [data], parse) == Accept(c, parse(data))
    ensures parse(data).Malformed? && c.failure.None? ==>
      Accept(c, parse(data)) == c.(failure := Some(parse(data).message))
  {
    assert [data][1..] == [];
  }

  lemma {:induction false} ReadEnd(c: Client, lines: seq<string>, k: nat, parse: string -> Parse)
    requires k <= |lines| && (k == |lines| || AcceptAll(c, Datas(lines[..k]), parse).failure.Some?)
    ensures AcceptAll(c, Datas(lines[..k]), parse) == AcceptAll(c, Datas(lines), parse)
  {
    hide AcceptAll, Datas;
    assert lines == lines[..k] + lines[k..];
    if k < |lines| {
      DatasConcat(lines[..k], lines[k..]);
      AcceptConcat(c, Datas(lines[..k]), Datas(lines[k..]), parse);
      FailedStays(AcceptAll(c, Datas(lines[..k]), parse), Datas(lines[k..]), parse);
    } else {
      assert lines[..k] == lines;
    }
  }

  lemma {:induction false} NothingRead(chunks: seq<string>, parse: string -> Parse)
    ensures ReadAll(Flatten(chunks[..0]), parse) == FRESH && Unfinished(Flatten(chunks[..0])) == ""
  {
    assert chunks[..0] == [];
  }

  /** Reading on: only the unfinished line matters for what more text says. */
  lemma {:induction false} ReadMore(a: string, b: string, parse: string -> Parse)
    ensures ReadAll(a + b, parse) == AcceptAll(ReadAll(a, parse), Datas(Lines(Unfinished(a) + b)), parse)
    ensures Unfinished(a + b) == Unfinished(Unfinished(a) + b)
  {
    hide AcceptAll, Datas, Lines, Unfinished;
    ReadOn(a, b);
    DatasConcat(Lines(a), Lines(Unfinished(a) + b));
    AcceptConcat(FRESH, Datas(Lines(a)), Datas(Lines(Unfinished(a) + b)), parse);
  }

  lemma {:induction false} ChunkRead(chunks: seq<string>, k: nat, parse: string -> Parse)
    requires k < |chunks|
    ensures var text := Flatten(chunks[..k]);
      && Unfinished(Flatten(chunks[..k + 1])) == Unfinished(Unfinished(text) + chunks[k])
      && ReadAll(Flatten(chunks[..k + 1]), parse)
           == AcceptAll(ReadAll(text, parse), Datas(Lines(Unfinished(text) + chunks[k])), parse)
  {
    hide AcceptAll, Datas, Lines, Unfinished, Flatten, ReadAll;
    assert chunks[..k + 1] == chunks[..k] + [chunks[k]];
    FlattenSnoc(chunks[..k], chunks[k]);
    ReadMore(Flatten(chunks[..k]), chunks[k], parse);
  }

  lemma {:induction false} ChunksLeft(chunks: seq<string>, k: nat, n: nat, parse: string -> Parse)
    requires k <= n <= |chunks| && (k == n || ReadAll(Flatten(chunks[..k]), parse).failure.Some?)
    ensures ReadAll(Flatten(chunks[..k]), parse) == ReadAll(Flatten(chunks[..n]), parse)
  {
    hide AcceptAll, Datas, Lines, Unfinished, Flatten, ReadAll;
    var a, b := Flatten(chunks[..k]), Flatten(chunks[k..n]);
    assert chunks[..n] == chunks[..k] + chunks[k..n];
    FlattenConcat(chunks[..k], chunks[k..n]);
    if k < n {
      ReadMore(a, b, parse);
      FailedStays(ReadAll(a, parse), Datas(Lines(Unfinished(a) + b)), parse);
    }
  }

  // ----- What the rebuilt message is

  function ApplyAll(m: Message, es: seq<ProxyEvent>): Client {
    if es == [] then Client(m, [], None) else
      Accept(ApplyAll(m, es[..|es| - 1]), Parsed(es[|es| - 1]))
  }

  /** The last event that starts a block at `index`, or -1. */
  function LastStart(es: seq<ProxyEvent>, index: nat): (k: int)
    ensures -1 <= k < |es|
    ensures k >= 0 ==> es[k].BlockStart? && es[k].index == index
    ensures forall j :: k < j < |es| ==> !(es[j].BlockStart? && es[j].index == index)
  {
    if es == [] then -1
    else if es[|es| - 1].BlockStart? && es[|es| - 1].index == index then |es| - 1
    else LastStart(es[..|es| - 1], index)
  }

  /** The deltas for a block, joined. */
  function DeltaText(es: seq<ProxyEvent>, index: nat): string {
    if es == [] then "" else
      var e := es[|es| - 1];
      DeltaText(es[..|es| - 1], index) + (if e.Delta? && e.index == index then e.delta else "")
  }

  /** The kind of the block that `index` holds after the events. */
  function KindAt(es: seq<ProxyEvent>, index: nat): Option<Kind> {
    var k := LastStart(es, index);
    if k == -1 then None else Some(es[k].kind)
  }

  /** The event fits the blocks started before it. */
  predicate Fits(es: seq<ProxyEvent>, e: ProxyEvent) {
    (e.Delta? || (e.BlockEnd? && e.kind != Tool)) ==> KindAt(es, e.index) == Some(e.kind)
  }

  predicate AllFit(es: seq<ProxyEvent>) {
    forall j :: 0 <= j < |es| ==> Fits(es[..j], es[j])
  }

  /** What one index holds, said from the events alone. */
  predicate BlockIs(m: Message, es: seq<ProxyEvent>, index: nat) {
    HoldsSince(m, es, index, LastStart(es, index))
  }

  /** The block at `index` was started by event `k`. */
  predicate HoldsSince(m: Message, es: seq<ProxyEvent>, index: nat, k: int)
    requires -1 <= k < |es| && (k >= 0 ==> es[k].BlockStart?)
  {
    if k == -1 then index !in m.content
    else Holds(m, index, es[k].kind) && (es[k].kind != Tool ==> m.content[index].text == DeltaText(es[k + 1..], index))
  }

  predicate Begins(e: ProxyEvent, index: nat) { e.BlockStart? && e.index == index }

  function Added(e: ProxyEvent, index: nat): string { if e.Delta? && e.index == index then e.delta else "" }

  lemma {:induction false} StartSnoc(es: seq<ProxyEvent>, e: ProxyEvent, index: nat)
    ensures LastStart(es + [e], index) == if Begins(e, index) then |es| else LastStart(es, index)
  {
    assert (es + [e])[..|es|] == es;
  }

  lemma {:induction false} TextSnoc(es: seq<ProxyEvent>, e: ProxyEvent, index: nat)
    ensures DeltaText(es + [e], index) == DeltaText(es, index) + Added(e, index)
  {
    assert (es + [e])[..|es|] == es;
  }

  /** What one event does to one index. */
  lemma {:induction false} ApplyAt(m: Message, e: ProxyEvent, index: nat)
    requires !Refused(m, e)
    ensures var r := Apply(m, e);
      if Begins(e, index) then Holds(r, index, e.kind) && r.content[index].text == ""
      else
        && (index in r.content <==> index in m.content)
        && (index in m.content ==>
             var a, b := m.content[index], r.content[index];
             b.kind == a.kind && (a.kind != Tool ==> b.text == a.text + Added(e, index)))
  {
  }

  lemma {:induction false} BlockStep(m: Message, es: seq<ProxyEvent>, e: ProxyEvent, index: nat)
    requires BlockIs(m, es, index) && !Refused(m, e)
    ensures BlockIs(Apply(m, e), es + [e], index)
  {
    hide Refused, Apply, HoldsSince;
    StartSnoc(es, e, index);
    if Begins(e, index) {
      HoldsAfresh(m, es, e, index);
    } else {
      HoldsStill(m, es, e, index, LastStart(es, index));
    }
  }

  lemma {:induction false} HoldsAfresh(m: Message, es: seq<ProxyEvent>, e: ProxyEvent, index: nat)
    requires Begins(e, index) && !Refused(m, e)
    ensures HoldsSince(Apply(m, e), es + [e], index, |es|)
  {
    hide Refused, Apply, DeltaText;
    ApplyAt(m, e, index);
    assert (es + [e])[|es| + 1..] == [];
    NoDeltas(index);
  }

  lemma {:induction false} HoldsStill(m: Message, es: seq<ProxyEvent>, e: ProxyEvent, index: nat, k: int)
    requires -1 <= k < |es| && (k >= 0 ==> es[k].BlockStart?)
    requires !Begins(e, index) && !Refused(m, e) && HoldsSince(m, es, index, k)
    ensures HoldsSince(Apply(m, e), es + [e], index, k)
  {
    hide Refused, Apply, DeltaText;
    ApplyAt(m, e, index);
    if k >= 0 {
      assert (es + [e])[k + 1..] == es[k + 1..] + [e];
      TextSnoc(es[k + 1..], e, index);
    }
  }

  lemma {:induction false} NoDeltas(index: nat)
    ensures DeltaText([], index) == ""
  {
  }

  /** A refused event is one that does not fit. */
  lemma {:induction false} RefusedIs(m: Message, es: seq<ProxyEvent>, e: ProxyEvent)
    requires forall i :: BlockIs(m, es, i)
    ensures Refused(m, e) <==> !Fits(es, e)
  {
    if e.Delta? || e.BlockEnd? { assert BlockIs(m, es, e.index); }
  }

  /** For every interleaving of blocks: the stream is accepted exactly when every delta and end fits the
      block last started at its index, and then each text or thinking block is the concatenation of
      the deltas sent for it since its last start. */
  lemma {:induction false} Rebuilt(es: seq<ProxyEvent>)
    ensures ApplyAll(EMPTY, es).failure.None? <==> AllFit(es)
    ensures AllFit(es) ==> forall i :: BlockIs(ApplyAll(EMPTY, es).message, es, i)
    decreases |es|
  {
    hide Refused, Apply, Told, BlockIs, Fits;
    if es == [] {
      NothingHeld();
    } else {
      var n := |es| - 1;
      var init, e := es[..n], es[n];
      Rebuilt(init);
      assert es == init + [e] && forall j :: 0 <= j < n ==> init[..j] == es[..j];
      assert AllFit(es) <==> AllFit(init) && Fits(init, e);
      if AllFit(init) {
        var m := ApplyAll(EMPTY, init).message;
        RefusedIs(m, init, e);
        if Fits(init, e) {
          forall i ensures BlockIs(Apply(m, e), es, i) { BlockStep(m, init, e, i); }
        }
      }
    }
  }

  lemma {:induction false} NothingHeld()
    ensures forall i :: BlockIs(EMPTY, [], i)
  {
  }

  /** The end of a text or thinking block tells the application all of its text. */
  lemma {:induction false} EndTellsText(es: seq<ProxyEvent>, e: ProxyEvent)
    requires AllFit(es) && e.BlockEnd? && e.kind != Tool && Fits(es, e)
    ensures Told(ApplyAll(EMPTY, es).message, e) == [Out(e, DeltaText(es[LastStart(es, e.index) + 1..], e.index))]
  {
    hide ApplyAll, DeltaText, LastStart, AllFit;
    Rebuilt(es);
    assert BlockIs(ApplyAll(EMPTY, es).message, es, e.index);
  }

  /** Reading payloads that all parse is applying their events. */
  lemma {:induction false} AcceptIsApply(datas: seq<string>, es: seq<ProxyEvent>, parse: string -> Parse)
    requires |datas| == |es| && forall i :: 0 <= i < |es| ==> parse(datas[i]) == Parsed(es[i])
    ensures AcceptAll(FRESH, datas, parse) == ApplyAll(EMPTY, es)
    decreases |es|
  {
    hide Accept;
    if es != [] {
      var n := |es| - 1;
      AcceptIsApply(datas[..n], es[..n], parse);
      assert datas == datas[..n] + [datas[n]];
      AcceptConcat(FRESH, datas[..n], [datas[n]], parse);
      AcceptOne(ApplyAll(EMPTY, es[..n]), datas[n], parse);
    }
  }
}
