/** Splitting terminal input into key sequences and pastes: the functions the buffer object computes. */
module StdinModel {
  import opened Basics
  import opened Strings

  /** UTF-16 code units. */
  type Unit = nat
  type Text = seq<Unit>

  const ESC: Unit := 0x1b
  const BEL: Unit := 0x07
  const BACKSLASH: Unit := 0x5c
  const SEMICOLON: Unit := 0x3b
  const COLON: Unit := 0x3a
  const PASTE_START: Text := [0x1b, 0x5b, 0x32, 0x30, 0x30, 0x7e]  // ESC [ 200 ~
  const PASTE_END: Text := [0x1b, 0x5b, 0x32, 0x30, 0x31, 0x7e]    // ESC [ 201 ~
  const ST: Text := [0x1b, 0x5c]

  datatype Status = Complete | Incomplete | NotEscape

  predicate IsDigitUnit(u: Unit) { 0x30 <= u <= 0x39 }

  predicate DigitUnits(s: Text) { forall i :: 0 <= i < |s| ==> IsDigitUnit(s[i]) }

  /** `<digits;digits;digits` followed by `M` or `m`. */
  predicate IsSgrMouse(payload: Text)
    requires payload != []
  {
    var last := payload[|payload| - 1];
    && (last == 0x4d || last == 0x6d) && |payload| >= 2
    && var parts := Split(payload[1..|payload| - 1], SEMICOLON);
       |parts| == 3 && forall i :: 0 <= i < 3 ==> parts[i] != [] && DigitUnits(parts[i])
  }

  function CsiStatus(data: Text): Status
    requires |data| >= 2
  {
    if |data| < 3 then Incomplete else
      var payload := data[2..];
      var last := payload[|payload| - 1];
      if !(0x40 <= last <= 0x7e) then Incomplete
      else if payload[0] == 0x3c && !IsSgrMouse(payload) then Incomplete
      else Complete
  }

  function IsCompleteSequence(data: Text): Status {
    if data == [] || data[0] != ESC then NotEscape
    else if |data| == 1 then Incomplete
    else if data[1] == 0x5b then
      if |data| >= 3 && data[2] == 0x4d then (if |data| >= 6 then Complete else Incomplete) else CsiStatus(data)
    else if data[1] == 0x5d then if EndsWith(data, ST) || EndsWith(data, [BEL]) then Complete else Incomplete
    else if data[1] == 0x50 || data[1] == 0x5f then if EndsWith(data, ST) then Complete else Incomplete
    else if data[1] == 0x4f then if |data| >= 3 then Complete else Incomplete
    else Complete
  }

  datatype Extraction = Extraction(sequences: seq<Text>, remainder: Text)

  /** The length of the shortest complete prefix of at least `n` units, or one more than there are. */
  function FindEnd(rest: Text, n: nat): (end: nat)
    requires n <= |rest| + 1
    ensures n <= end <= |rest| + 1
    ensures end <= |rest| ==> IsCompleteSequence(rest[..end]) != Incomplete
    ensures forall k :: n <= k < end ==> IsCompleteSequence(rest[..k]) == Incomplete
    decreases |rest| + 1 - n
  {
    if n > |rest| || IsCompleteSequence(rest[..n]) != Incomplete then n else FindEnd(rest, n + 1)
  }

  /** Units that make a second ESC the start of a sequence of its own. */
  predicate Introduces(u: Unit) {
    u == 0x5b || u == 0x5d || u == 0x4f || u == 0x50 || u == 0x5f
  }

  predicate DoubleEscape(buffer: Text, end: nat)
    requires end <= |buffer|
  {
    buffer[..end] == [ESC, ESC] && end < |buffer| && Introduces(buffer[end])
  }

  function Extract(buffer: Text): Extraction
    decreases |buffer|
  {
    if buffer == [] then Extraction([], [])
    else if buffer[0] != ESC then
      var e := Extract(buffer[1..]);
      Extraction([[buffer[0]]] + e.sequences, e.remainder)
    else
      var end := FindEnd(buffer, 1);
      if end > |buffer| then Extraction([], buffer)
      else
        var n := if DoubleEscape(buffer, end) then 1 else end;
        var e := Extract(buffer[n..]);
        Extraction([buffer[..n]] + e.sequences, e.remainder)
  }

  // ----- Emission

  datatype Event = Data(text: Text) | Paste(text: Text)

  function DecimalValue(s: Text): nat {
    if s == [] then 0 else 10 * DecimalValue(s[..|s| - 1]) + (if s[|s| - 1] >= 0x30 then s[|s| - 1] - 0x30 else 0)
  }

  /** The code point of an unmodified Kitty key press `ESC [ code (: digits*)? (: digits+)? u`. */
  function KittyCodepoint(s: Text): Option<nat> {
    if |s| < 4 || s[..2] != [ESC, 0x5b] || s[|s| - 1] != 0x75 then None else
      var parts := Split(s[2..|s| - 1], COLON);
      if && |parts| <= 3 && parts[0] != [] && (forall i :: 0 <= i < |parts| ==> DigitUnits(parts[i]))
         && (|parts| == 3 ==> parts[2] != []) && DecimalValue(parts[0]) >= 32
      then Some(DecimalValue(parts[0])) else None
  }

  datatype Emission = Emission(pending: Option<nat>, events: seq<Event>)

  /** A lone unit that repeats the Kitty key press just reported is dropped. */
  function Emit(pending: Option<nat>, s: Text): Emission {
    if |s| == 1 && pending == Some(s[0]) then Emission(None, [])
    else Emission(KittyCodepoint(s), [Data(s)])
  }

  function EmitAll(pending: Option<nat>, sequences: seq<Text>): Emission
    decreases |sequences|
  {
    if sequences == [] then Emission(pending, []) else
      var first := Emit(pending, sequences[0]);
      var rest := EmitAll(first.pending, sequences[1..]);
      Emission(rest.pending, first.events + rest.events)
  }

  // ----- The buffer

  datatype State = State(buffer: Text, pasteMode: bool, pasteBuffer: Text, pending: Option<nat>)
  datatype Step = Step(state: State, events: seq<Event>)

  const INITIAL := State([], false, [], None)

  /** Looks for the end of a paste; what follows it is processed as new input. */
  function ClosePaste(paste: Text, pending: Option<nat>): Step
    decreases |paste|, 0
  {
    var end := IndexOf(paste, PASTE_END);
    if end == -1 then Step(State([], true, paste, pending), []) else
      var remaining := paste[end + |PASTE_END|..];
      var rest := if remaining == [] then Step(INITIAL, []) else Process(INITIAL, remaining);
      Step(rest.state, [Paste(paste[..end])] + rest.events)
  }

  function Process(s: State, data: Text): Step
    decreases |s.buffer| + |s.pasteBuffer| + |data|, 1
  {
    if data == [] && s.buffer == [] then
      var e := Emit(s.pending, []);
      Step(s.(pending := e.pending), e.events)
    else
      var buffer := s.buffer + data;
      if s.pasteMode then ClosePaste(s.pasteBuffer + buffer, s.pending)
      else
        var start := IndexOf(buffer, PASTE_START);
        if start != -1 then
          var e := EmitAll(s.pending, Extract(buffer[..start]).sequences);
          var rest := ClosePaste(buffer[start + |PASTE_START|..], None);
          Step(rest.state, e.events + rest.events)
        else
          var x := Extract(buffer);
          var e := EmitAll(s.pending, x.sequences);
          Step(s.(buffer := x.remainder, pending := e.pending), e.events)
  }

  function Feed(s: State, chunks: seq<Text>): Step
    decreases |chunks|
  {
    if chunks == [] then Step(s, []) else
      var first := Process(s, chunks[0]);
      var rest := Feed(first.state, chunks[1..]);
      Step(rest.state, first.events + rest.events)
  }

  /** The timeout: an incomplete sequence is delivered as it is. */
  function Flush(s: State): Step {
    if s.buffer == [] then Step(s, []) else
      var e := Emit(None, s.buffer);
      Step(s.(buffer := [], pending := e.pending), e.events)
  }
}
