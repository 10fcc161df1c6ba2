/** The Kitty graphics commands a frame contains: how an image is sent and how its id is found again. */
module KittyProtocol {
  import opened Basics
  import opened Strings
  import opened AnsiStyle

  const PREFIX := "\U{1B}_G"
  const CHUNK_SIZE := 4096
  const MAX_ID := 0xffff_ffff

  /** Sizes and the id are absent when 0. */
  datatype Options = Options(columns: nat, rows: nat, imageId: nat, moveCursor: bool)

  /** One control key. */
  datatype Param = Param(name: char, value: string)

  function Text(p: Param): string { [p.name, '='] + p.value }

  function Texts(ps: seq<Param>): (r: seq<string>)
    ensures |r| == |ps| && forall i :: 0 <= i < |ps| ==> r[i] == Text(ps[i])
  {
    seq(|ps|, i requires 0 <= i < |ps| => Text(ps[i]))
  }

  function NumberParam(name: char, n: nat): seq<Param> { if n == 0 then [] else [Param(name, ToDecimal(n))] }

  function LeadParams(o: Options): seq<Param> {
    [Param('a', "T"), Param('f', "100"), Param('q', "2")] + (if o.moveCursor then [] else [Param('C', "1")])
    + NumberParam('c', o.columns) + NumberParam('r', o.rows)
  }

  function Params(o: Options): (ps: seq<Param>)
    ensures ps != []
  {
    LeadParams(o) + NumberParam('i', o.imageId)
  }

  const MORE := Param('m', "1")

  /** The control keys of the first command; more commands follow when the payload is long. */
  function FirstParams(o: Options, data: string): (ps: seq<Param>)
    ensures ps != []
  {
    Params(o) + (if |data| <= CHUNK_SIZE then [] else [MORE])
  }

  function Apc(control: string, payload: string): string { PREFIX + control + ";" + payload + ST }

  /** The commands after the first. */
  function Rest(data: string): string
    decreases |data|
  {
    if |data| <= CHUNK_SIZE then Apc("m=0", data) else Apc("m=1", data[..CHUNK_SIZE]) + Rest(data[CHUNK_SIZE..])
  }

  function Encoded(o: Options, data: string): string {
    var control := Join(Texts(FirstParams(o, data)), ',');
    if |data| <= CHUNK_SIZE then Apc(control, data) else Apc(control, data[..CHUNK_SIZE]) + Rest(data[CHUNK_SIZE..])
  }

  lemma {:induction false} JoinSnoc(parts: seq<string>, x: string)
    requires parts != []
    ensures Join(parts + [x], ',') == Join(parts, ',') + "," + x
  {
    var all := parts + [x];
    assert all[0] == parts[0] && all[1..] == parts[1..] + [x];
    if |parts| == 1 {
      assert all[1..] == [x];
    } else {
      JoinSnoc(parts[1..], x);
    }
  }

  lemma {:induction false} TextsSnoc(ps: seq<Param>, p: Param)
    ensures Texts(ps + [p]) == Texts(ps) + [Text(p)]
  {
  }

  /** What is still to be written from `offset` on. */
  function Remaining(control: string, data: string, offset: nat): string
    requires |data| > CHUNK_SIZE
  {
    if offset == 0 then Apc(control + ",m=1", data[..CHUNK_SIZE]) + Rest(data[CHUNK_SIZE..])
    else if offset >= |data| then ""
    else Rest(data[offset..])
  }

  method EncodeKitty(base64Data: string, o: Options) returns (r: string)
    ensures r == Encoded(o, base64Data)
  {
    hide Encoded, Texts, Join, Flatten, Rest, Remaining;
    var params := BuildParams(o);
    if |base64Data| <= CHUNK_SIZE {
      ShortIs(o, base64Data);
      return Apc(Join(params, ','), base64Data);
    }
    var chunks, offset, isFirst := [], 0, true;
    StartsEmpty(Remaining(Join(params, ','), base64Data, 0));
    while offset < |base64Data|
      invariant isFirst == (offset == 0)
      invariant Flatten(chunks) + Remaining(Join(params, ','), base64Data, offset)
        == Remaining(Join(params, ','), base64Data, 0)
    {
      var end := if offset + CHUNK_SIZE < |base64Data| then offset + CHUNK_SIZE else |base64Data|;
      var chunk := base64Data[offset..end];
      var isLast := offset + CHUNK_SIZE >= |base64Data|;
      var command := if isFirst then Apc(Join(params, ',') + ",m=1", chunk) else if isLast then Apc("m=0", chunk)
      else Apc("m=1", chunk);
      RemainingStep(Join(params, ','), base64Data, offset, end);
      FlattenSnoc(chunks, command);
      Reassociate(Flatten(chunks), command, Remaining(Join(params, ','), base64Data, offset + CHUNK_SIZE));
      chunks := chunks + [command];
      isFirst := false;
      offset := offset + CHUNK_SIZE;
    }
    LongIs(o, base64Data, offset);
    r := Flatten(chunks);
  }

  lemma {:induction false} StartsEmpty(x: string)
    ensures Flatten([]) + x == x
  {
  }

  method BuildParams(o: Options) returns (params: seq<string>)
    ensures params == Texts(Params(o))
  {
    hide ToDecimal, Text, Texts;
    params := ["a=T", "f=100", "q=2"];
    ghost var ps := [Param('a', "T"), Param('f', "100"), Param('q', "2")];
    FixedTexts();
    if !o.moveCursor { TextsSnoc(ps, Param('C', "1")); params, ps := params + ["C=1"], ps + [Param('C', "1")]; }
    params := PushNumber(params, ps, 'c', o.columns);
    params := PushNumber(params, ps + NumberParam('c', o.columns), 'r', o.rows);
    params := PushNumber(params, LeadParams(o), 'i', o.imageId);
  }

  lemma {:induction false} FixedTexts()
    ensures Texts([Param('a', "T"), Param('f', "100"), Param('q', "2")]) == ["a=T", "f=100", "q=2"]
      && Text(Param('C', "1")) == "C=1"
  {
    assert "a=T" == Text(Param('a', "T")) && "f=100" == Text(Param('f', "100")) && "q=2" == Text(Param('q', "2"));
  }

  method PushNumber(params: seq<string>, ghost ps: seq<Param>, name: char, n: nat) returns (r: seq<string>)
    requires params == Texts(ps)
    ensures r == Texts(ps + NumberParam(name, n))
  {
    hide ToDecimal, Texts;
    if n == 0 {
      assert ps + NumberParam(name, n) == ps;
      return params;
    }
    TextsSnoc(ps, Param(name, ToDecimal(n)));
    return params + [[name, '='] + ToDecimal(n)];
  }

  lemma {:induction false} RemainingStep(control: string, data: string, offset: nat, end: nat)
    requires |data| > CHUNK_SIZE && offset < |data|
    requires end == if offset + CHUNK_SIZE < |data| then offset + CHUNK_SIZE else |data|
    ensures var chunk := data[offset..end];
      Remaining(control, data, offset)
        == (if offset == 0 then Apc(control + ",m=1", chunk) else if end == |data| then Apc("m=0", chunk)
        else Apc("m=1", chunk))
         + Remaining(control, data, offset + CHUNK_SIZE)
  {
    hide Apc;
    var chunk := data[offset..end];
    if offset == 0 {
      assert data[..CHUNK_SIZE] == chunk;
    } else if end == |data| {
      assert data[offset..] == chunk && Apc("m=0", chunk) + "" == Apc("m=0", chunk);
    } else {
      assert data[offset..][CHUNK_SIZE..] == data[offset + CHUNK_SIZE..] && data[offset..][..CHUNK_SIZE] == chunk;
    }
  }

  lemma {:induction false} ShortIs(o: Options, data: string)
    requires |data| <= CHUNK_SIZE
    ensures Encoded(o, data) == Apc(Join(Texts(Params(o)), ','), data)
  {
    assert Params(o) + [] == Params(o);
  }

  lemma {:induction false} LongIs(o: Options, data: string, offset: nat)
    requires |data| > CHUNK_SIZE && offset >= |data|
    ensures Encoded(o, data) == Remaining(Join(Texts(Params(o)), ','), data, 0)
    ensures forall a: string, c :: a + Remaining(c, data, offset) == a
  {
    hide Params, Texts, Apc, Join;
    TextsSnoc(Params(o), MORE);
    assert Text(MORE) == "m=1";
    JoinSnoc(Texts(Params(o)), "m=1");
    var c := Join(Texts(Params(o)), ',');
    assert c + "," + "m=1" == c + ",m=1";
  }

  // ----- Finding the id again

  /** A value read as a number. */
  function Number(value: string): Option<nat> { if Digits(value) then ParseInt(value) else None }

  predicate IsId(n: Option<nat>) { n.Some? && 0 < n.value <= MAX_ID }

  function FindId(parts: seq<string>): seq<nat> {
    if parts == [] then [] else
      var kv := Split(parts[0], '=');
      if kv[0] == "i" && |kv| >= 2 && IsId(Number(kv[1])) then [Number(kv[1]).value] else FindId(parts[1..])
  }

  function ExtractKittyImageIds(line: string): seq<nat> {
    var start := IndexOf(line, PREFIX);
    if start == -1 then [] else
      var end := IndexFrom(line, ";", start + 3);
      if end == -1 then [] else FindId(Split(line[start + 3..end], ','))
  }

  /** The id named by a list of control keys. */
  function IdOf(ps: seq<Param>): seq<nat> {
    if ps == [] then [] else if ps[0].name == 'i' && IsId(Number(ps[0].value)) then [Number(ps[0].value).value]
    else IdOf(ps[1..])
  }

  predicate Plain(ps: seq<Param>) {
    forall i :: 0 <= i < |ps| ==> PlainParam(ps[i])
  }

  predicate PlainParam(p: Param) { p.name !in "=,;" && forall k :: 0 <= k < |p.value| ==> p.value[k] !in "=,;" }

  lemma {:induction false} TextSplits(p: Param)
    requires PlainParam(p)
    ensures Split(Text(p), '=') == [[p.name], p.value] && ',' !in Text(p) && ';' !in Text(p)
  {
    assert Text(p) == [p.name] + ['='] + p.value;
    SplitConcat([p.name], '=', p.value);
    SplitWhole([p.name], '=');
    SplitWhole(p.value, '=');
  }

  lemma {:induction false} FindsId(ps: seq<Param>)
    requires Plain(ps)
    ensures FindId(Texts(ps)) == IdOf(ps)
  {
    hide Number, IsId;
    if ps != [] {
      TextSplits(ps[0]);
      FindsId(ps[1..]);
      assert Texts(ps)[1..] == Texts(ps[1..]);
      assert [ps[0].name] == "i" <==> ps[0].name == 'i';
    }
  }

  lemma {:induction false} JoinAvoids(parts: seq<string>, c: char)
    requires c != ',' && forall i :: 0 <= i < |parts| ==> c !in parts[i]
    ensures c !in Join(parts, ',')
  {
    if |parts| > 1 { JoinAvoids(parts[1..], c); }
  }

  lemma {:induction false} SplitJoined(parts: seq<string>)
    requires parts != [] && forall i :: 0 <= i < |parts| ==> ',' !in parts[i]
    ensures Split(Join(parts, ','), ',') == parts
  {
    SplitWhole(parts[0], ',');
    if |parts| > 1 {
      SplitConcat(parts[0], ',', Join(parts[1..], ','));
      SplitJoined(parts[1..]);
    }
  }

  /** Joined control keys are read back key by key. */
  lemma {:induction false} ControlReads(ps: seq<Param>)
    requires Plain(ps) && ps != []
    ensures var control := Join(Texts(ps), ',');
      Split(control, ',') == Texts(ps) && ';' !in control && FindId(Split(control, ',')) == IdOf(ps)
  {
    hide Split, Join, FindId, IdOf;
    forall i | 0 <= i < |ps| ensures ',' !in Texts(ps)[i] && ';' !in Texts(ps)[i] { TextSplits(ps[i]); }
    SplitJoined(Texts(ps));
    JoinAvoids(Texts(ps), ';');
    FindsId(ps);
  }

  lemma {:induction false} IdSkips(a: seq<Param>, b: seq<Param>)
    requires forall i :: 0 <= i < |a| ==> a[i].name != 'i'
    ensures IdOf(a + b) == IdOf(b)
  {
    if a == [] {
      assert a + b == b;
    } else {
      assert (a + b)[1..] == a[1..] + b && (a + b)[0] == a[0];
      IdSkips(a[1..], b);
    }
  }

  lemma {:induction false} PlainNumber(name: char, n: nat)
    requires name !in "=,;"
    ensures Plain(NumberParam(name, n))
  {
    hide ToDecimal;
    assert forall k :: 0 <= k < |ToDecimal(n)| ==> IsDigit(ToDecimal(n)[k]);
  }

  lemma {:induction false} FirstParamsPlain(o: Options, data: string)
    ensures Plain(FirstParams(o, data)) && forall i :: 0 <= i < |LeadParams(o)| ==> LeadParams(o)[i].name != 'i'
  {
    hide ToDecimal, PlainParam;
    PlainNumber('c', o.columns);
    PlainNumber('r', o.rows);
    PlainNumber('i', o.imageId);
    FixedPlain();
  }

  lemma {:induction false} FixedPlain()
    ensures PlainParam(Param('a', "T")) && PlainParam(Param('f', "100")) && PlainParam(Param('q', "2"))
      && PlainParam(Param('C', "1")) && PlainParam(MORE)
  {
  }

  lemma {:induction false} FirstParamsId(o: Options, data: string)
    ensures IdOf(FirstParams(o, data)) == if 0 < o.imageId <= MAX_ID then [o.imageId] else []
  {
    hide ToDecimal, LeadParams, ParseInt;
    var more := if |data| <= CHUNK_SIZE then [] else [MORE];
    var id := NumberParam('i', o.imageId);
    FirstParamsPlain(o, data);
    assert FirstParams(o, data) == LeadParams(o) + (id + more);
    IdSkips(LeadParams(o), id + more);
    assert id + more == if o.imageId == 0 then more else [Param('i', ToDecimal(o.imageId))] + more;
    assert o.imageId != 0 ==> (id + more)[1..] == more;
    assert IdOf(more) == [] by { assert more != [] ==> more[1..] == []; }
  }

  /** The first command after any text without one is the one found. */
  lemma {:induction false} PrefixFound(pre: string, rest: string)
    requires IndexOf(pre, PREFIX) == -1
    ensures IndexOf(pre + PREFIX + rest, PREFIX) == |pre|
  {
    var s := pre + PREFIX + rest;
    forall k | 0 <= k < |pre| ensures !OccursAt(s, PREFIX, k) {
      assert !OccursAt(pre, PREFIX, k);
      assert k + 3 <= |pre| ==> s[k..k + 3] == pre[k..k + 3];
      assert k + 3 > |pre| ==> s[k..k + 3][|pre| - k] == ESC;
    }
    assert s[|pre|..|pre| + 3] == PREFIX;
    IndexOfIs(s, PREFIX, |pre|);
  }

  lemma {:induction false} SemicolonFound(s: string, from: nat, end: nat)
    requires from <= end < |s| && s[end] == ';' && ';' !in s[from..end]
    ensures IndexFrom(s, ";", from) == end
    decreases end - from
  {
    if from < end {
      assert s[from] in s[from..end] && s[from..from + 1] == [s[from]];
      assert forall c :: c in s[from + 1..end] ==> c in s[from..end];
      SemicolonFound(s, from + 1, end);
    } else {
      assert s[end..end + 1] == ";";
    }
  }

  /** Reading the id stops at the first command, whatever follows it. */
  lemma {:induction false} IdsOfCommand(pre: string, control: string, rest: string)
    requires IndexOf(pre, PREFIX) == -1 && ';' !in control
    ensures ExtractKittyImageIds(pre + (PREFIX + control + ";" + rest)) == FindId(Split(control, ','))
  {
    hide IndexOf, IndexFrom, Split, FindId;
    var s := pre + (PREFIX + control + ";" + rest);
    var from, end := |pre| + 3, |pre| + 3 + |control|;
    CommandPlace(pre, control, rest);
    PrefixFound(pre, control + ";" + rest);
    SemicolonFound(s, from, end);
  }

  lemma {:induction false} CommandPlace(pre: string, control: string, rest: string)
    ensures var s := pre + (PREFIX + control + ";" + rest); var from, end := |pre| + 3, |pre| + 3 + |control|;
      s == pre + PREFIX + (control + ";" + rest) && end < |s| && s[end] == ';' && s[from..end] == control
  {
    var s := pre + (PREFIX + control + ";" + rest);
    assert s == pre + PREFIX + (control + ";" + rest);
    assert s == (pre + PREFIX) + control + (";" + rest);
  }

  lemma {:induction false} CommandShape(control: string, payload: string, rest: string)
    ensures Apc(control, payload) + rest == PREFIX + control + ";" + (payload + ST + rest)
  {
  }

  lemma {:induction false} EncodedShape(o: Options, data: string, post: string) returns (rest: string)
    ensures Encoded(o, data) + post == PREFIX + Join(Texts(FirstParams(o, data)), ',') + ";" + rest
  {
    hide Join, FirstParams, Texts, Apc, Rest;
    var control := Join(Texts(FirstParams(o, data)), ',');
    if |data| <= CHUNK_SIZE {
      rest := data + ST + post;
      CommandShape(control, data, post);
    } else {
      var tail := Rest(data[CHUNK_SIZE..]);
      rest := data[..CHUNK_SIZE] + ST + (tail + post);
      CommandShape(control, data[..CHUNK_SIZE], tail + post);
      Reassociate(Apc(control, data[..CHUNK_SIZE]), tail, post);
    }
  }

  /** The id that an encoded image carries is the one found in any line that holds it, for every
      payload; an image without an id in range has none. */
  lemma {:induction false} IdRecovered(pre: string, o: Options, data: string, post: string)
    requires IndexOf(pre, PREFIX) == -1
    ensures ExtractKittyImageIds(pre + (Encoded(o, data) + post)) == if 0 < o.imageId <= MAX_ID then [o.imageId] else []
  {
    hide Encoded, Join, FirstParams, Texts, Split, FindId, IdOf, ExtractKittyImageIds, IndexOf;
    FirstParamsPlain(o, data);
    ControlReads(FirstParams(o, data));
    FirstParamsId(o, data);
    var rest := EncodedShape(o, data, post);
    IdsOfCommand(pre, Join(Texts(FirstParams(o, data)), ','), rest);
  }

  function DeleteKittyImage(id: nat): string { PREFIX + ("a=d,d=I,i=" + ToDecimal(id) + ",q=2") + ST }

  /** A delete command is not taken for an image. */
  lemma {:induction false} DeleteIsNoImage(id: nat)
    ensures ExtractKittyImageIds(DeleteKittyImage(id)) == []
  {
    hide ToDecimal, FindId, Split;
    var s := DeleteKittyImage(id);
    assert forall k :: 0 <= k < |ToDecimal(id)| ==> IsDigit(ToDecimal(id)[k]);
    assert ';' !in s;
    assert forall k :: OccursAt(s, ";", k) ==> s[k..k + 1][0] in s;
  }

  // ----- The receiving side

  /** What a terminal reads: commands are collected while their keys say that more follow. */
  function Receive(s: string): Option<(string, seq<string>)>
    decreases |s|
  {
    if !StartsWith(s, PREFIX) then None else
      var semi := IndexFrom(s, ";", 3);
      var end := if semi == -1 then -1 else IndexFrom(s, ST, semi + 1);
      if end == -1 then None else
        var control, payload := s[3..semi], s[semi + 1..end];
        if "m=1" !in Split(control, ',') then
          if end + 2 == |s| then Some((control, [payload])) else None
        else
          var rest := Receive(s[end + 2..]);
          if rest.None? then None else Some((control, [payload] + rest.value.1))
  }

  lemma {:induction false} TerminatorFound(s: string, from: nat, end: nat)
    requires from <= end && end + 2 <= |s| && s[end..end + 2] == ST && ESC !in s[from..end]
    ensures IndexFrom(s, ST, from) == end
    decreases end - from
  {
    if from < end {
      assert s[from] in s[from..end] && s[from..from + 2][0] == s[from];
      assert forall c :: c in s[from + 1..end] ==> c in s[from..end];
      TerminatorFound(s, from + 1, end);
    }
  }

  /** Reading one command. */
  lemma {:induction false} ReceiveStep(control: string, payload: string, rest: string)
    requires ';' !in control && ESC !in payload
    ensures Receive(Apc(control, payload) + rest) ==
      if "m=1" !in Split(control, ',') then (if rest == "" then Some((control, [payload])) else None)
      else if Receive(rest).None? then None else Some((control, [payload] + Receive(rest).value.1))
  {
    hide IndexFrom, Split;
    var s := Apc(control, payload) + rest;
    var semi := 3 + |control|;
    var end := semi + 1 + |payload|;
    assert s[..3] == PREFIX && s[3..semi] == control && s[semi] == ';' && s[semi + 1..end] == payload
        && s[end..end + 2] == ST && s[end + 2..] == rest;
    SemicolonFound(s, 3, semi);
    TerminatorFound(s, semi + 1, end);
  }

  predicate Sizes(payloads: seq<string>) { forall i :: 0 <= i < |payloads| ==> |payloads[i]| <= CHUNK_SIZE }

  lemma {:induction false} ContinuationKeys()
    ensures Split("m=0", ',') == ["m=0"] && Split("m=1", ',') == ["m=1"] && ';' !in "m=0" && ';' !in "m=1"
  {
    SplitWhole("m=0", ',');
    SplitWhole("m=1", ',');
  }

  lemma {:induction false} RestReceived(data: string)
    requires ESC !in data
    ensures var r := Receive(Rest(data)); r.Some? && Flatten(r.value.1) == data && Sizes(r.value.1)
    decreases |data|
  {
    hide Receive, Apc, Split;
    ContinuationKeys();
    if |data| <= CHUNK_SIZE {
      ReceiveStep("m=0", data, "");
      assert Apc("m=0", data) + "" == Apc("m=0", data);
      OnePayload(data);
    } else {
      var head, tail := data[..CHUNK_SIZE], data[CHUNK_SIZE..];
      Halves(data);
      RestReceived(tail);
      ReceiveStep("m=1", head, Rest(tail));
      MorePayloads(head, Receive(Rest(tail)).value.1);
    }
  }

  lemma {:induction false} Halves(data: string)
    requires |data| > CHUNK_SIZE && ESC !in data
    ensures data == data[..CHUNK_SIZE] + data[CHUNK_SIZE..] && ESC !in data[..CHUNK_SIZE] && ESC !in data[CHUNK_SIZE..]
  {
    assert forall c :: c in data[..CHUNK_SIZE] || c in data[CHUNK_SIZE..] ==> c in data;
  }

  lemma {:induction false} OnePayload(x: string)
    ensures Flatten([x]) == x
  {
    assert [x][1..] == [] && x + "" == x;
  }

  lemma {:induction false} MorePayloads(x: string, xs: seq<string>)
    ensures Flatten([x] + xs) == x + Flatten(xs)
  {
    assert ([x] + xs)[1..] == xs;
  }

  lemma {:induction false} MoreInKeys(o: Options, data: string)
    ensures "m=1" in Texts(FirstParams(o, data)) <==> |data| > CHUNK_SIZE
  {
    hide ToDecimal;
    var ps := FirstParams(o, data);
    if |data| > CHUNK_SIZE {
      assert Text(ps[|ps| - 1]) == "m=1" && Texts(ps)[|ps| - 1] == Text(ps[|ps| - 1]);
    } else {
      forall i | 0 <= i < |ps| ensures Texts(ps)[i][0] != 'm' {
        assert Texts(ps)[i] == Text(ps[i]) && ps[i].name != 'm';
      }
    }
  }

  /** Sending and receiving: the payload arrives whole, in commands of bounded size, under the keys
      that were asked for. */
  lemma {:induction false} ReceivedWhole(o: Options, data: string)
    requires ESC !in data
    ensures var r := Receive(Encoded(o, data));
      && r.Some? && Flatten(r.value.1) == data && Sizes(r.value.1)
      && Split(r.value.0, ',') == Texts(FirstParams(o, data))
  {
    hide Receive, Apc, Split, Join, Texts, FirstParams, Rest;
    var control := Join(Texts(FirstParams(o, data)), ',');
    FirstParamsPlain(o, data);
    ControlReads(FirstParams(o, data));
    MoreInKeys(o, data);
    if |data| <= CHUNK_SIZE {
      ReceiveStep(control, data, "");
      assert Apc(control, data) + "" == Apc(control, data);
      OnePayload(data);
    } else {
      var head, tail := data[..CHUNK_SIZE], data[CHUNK_SIZE..];
      Halves(data);
      RestReceived(tail);
      ReceiveStep(control, head, Rest(tail));
      MorePayloads(head, Receive(Rest(tail)).value.1);
    }
  }
}
