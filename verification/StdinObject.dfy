/** The stdin buffer as an object that its callers feed, proved to compute the model's steps. */
module StdinObject {
  import opened Basics
  import opened Strings
  import opened StdinModel

  /** The end of the first complete sequence, or one more than there is. */
  method FindSequenceEnd(remaining: Text) returns (seqEnd: nat)
    requires remaining != []
    ensures seqEnd == FindEnd(remaining, 1)
  {
    hide IsCompleteSequence;
    seqEnd := 1;
    while seqEnd <= |remaining| && IsCompleteSequence(remaining[..seqEnd]) == Incomplete
      invariant 1 <= seqEnd <= |remaining| + 1
      invariant FindEnd(remaining, 1) == FindEnd(remaining, seqEnd)
    {
      seqEnd := seqEnd + 1;
    }
  }

  /** Splits the accumulated buffer into complete sequences. */
  method ExtractCompleteSequences(buffer: Text) returns (sequences: seq<Text>, remainder: Text)
    ensures Extraction(sequences, remainder) == Extract(buffer)
  {
    hide IsCompleteSequence, FindEnd, Prepend;
    sequences := [];
    var pos := 0;
    PrependNone(Extract(buffer));
    assert buffer[0..] == buffer;
    while pos < |buffer|
      invariant 0 <= pos <= |buffer|
      invariant Extract(buffer) == Prepend(sequences, Extract(buffer[pos..]))
    {
      var remaining := buffer[pos..];
      ghost var rest := Extract(remaining);
      if remaining[0] == ESC {
        var seqEnd := FindSequenceEnd(remaining);
        if seqEnd > |remaining| {
          PrependLast(sequences, remaining);
          return sequences, remaining;
        }
        if remaining[..seqEnd] == [ESC, ESC] && seqEnd < |remaining| && Introduces(remaining[seqEnd]) {
          seqEnd := 1;
        }
        assert remaining[seqEnd..] == buffer[pos + seqEnd..];
        PrependOne(sequences, remaining[..seqEnd], Extract(remaining[seqEnd..]));
        sequences := sequences + [remaining[..seqEnd]];
        pos := pos + seqEnd;
      } else {
        assert remaining[1..] == buffer[pos + 1..];
        PrependOne(sequences, [remaining[0]], Extract(remaining[1..]));
        sequences := sequences + [[remaining[0]]];
        pos := pos + 1;
      }
    }
    assert buffer[pos..] == [];
    PrependLast(sequences, []);
    remainder := [];
  }

  ghost function Prepend(sequences: seq<Text>, e: Extraction): Extraction {
    Extraction(sequences + e.sequences, e.remainder)
  }

  lemma {:induction false} PrependNone(e: Extraction)
    ensures Prepend([], e) == e
  {
  }

  lemma {:induction false} PrependLast(sequences: seq<Text>, remainder: Text)
    ensures Prepend(sequences, Extraction([], remainder)) == Extraction(sequences, remainder)
  {
  }

  lemma {:induction false} PrependOne(sequences: seq<Text>, s: Text, e: Extraction)
    ensures Prepend(sequences, Extraction([s] + e.sequences, e.remainder)) == Prepend(sequences + [s], e)
  {
    assert sequences + ([s] + e.sequences) == sequences + [s] + e.sequences;
  }

  class StdinBuffer {
    var buffer: Text
    var pasteMode: bool
    var pasteBuffer: Text
    var pendingKittyPrintableCodepoint: Option<nat>
    /** Everything handed to listeners so far. */
    var emitted: seq<Event>

    function Value(): State
      reads this
    {
      State(buffer, pasteMode, pasteBuffer, pendingKittyPrintableCodepoint)
    }

    constructor ()
      ensures Value() == INITIAL && emitted == []
    {
      buffer, pasteMode, pasteBuffer := [], false, [];
      pendingKittyPrintableCodepoint := Option.None;
      emitted := [];
    }

    method EmitDataSequence(sequence: Text)
      modifies this`pendingKittyPrintableCodepoint, this`emitted
      ensures var e := Emit(old(pendingKittyPrintableCodepoint), sequence);
        pendingKittyPrintableCodepoint == e.pending && emitted == old(emitted) + e.events
    {
      if |sequence| == 1 && pendingKittyPrintableCodepoint == Some(sequence[0]) {
        pendingKittyPrintableCodepoint := Option.None;
        return;
      }
      pendingKittyPrintableCodepoint := KittyCodepoint(sequence);
      emitted := emitted + [Data(sequence)];
    }

    method EmitSequences(sequences: seq<Text>)
      modifies this`pendingKittyPrintableCodepoint, this`emitted
      ensures var e := EmitAll(old(pendingKittyPrintableCodepoint), sequences);
        pendingKittyPrintableCodepoint == e.pending && emitted == old(emitted) + e.events
    {
      hide Emit;
      for i := 0 to |sequences|
        invariant var e := EmitAll(old(pendingKittyPrintableCodepoint), sequences);
          var later := EmitAll(pendingKittyPrintableCodepoint, sequences[i..]);
          e.pending == later.pending && old(emitted) + e.events == emitted + later.events
      {
        ghost var now := Emit(pendingKittyPrintableCodepoint, sequences[i]);
        ghost var later := EmitAll(now.pending, sequences[i + 1..]);
        assert sequences[i..][1..] == sequences[i + 1..];
        assert emitted + (now.events + later.events) == emitted + now.events + later.events;
        EmitDataSequence(sequences[i]);
      }
    }

    /** Delivers the paste once its end marker has arrived and goes on with what follows it. */
    method TryClosePaste(paste: Text)
      modifies this
      ensures var step := ClosePaste(paste, old(pendingKittyPrintableCodepoint));
        Value() == step.state && emitted == old(emitted) + step.events
      decreases |paste|, 0
    {
      hide StdinModel.Process;
      buffer, pasteMode, pasteBuffer := [], true, paste;
      var endIndex := IndexOf(pasteBuffer, PASTE_END);
      if endIndex != -1 {
        var remaining := paste[endIndex + |PASTE_END|..];
        pasteMode, pasteBuffer := false, [];
        pendingKittyPrintableCodepoint := Option.None;
        emitted := emitted + [Paste(paste[..endIndex])];
        if |remaining| > 0 {
          Process(remaining);
        }
      }
    }

    method Process(data: Text)
      modifies this
      ensures var step := StdinModel.Process(old(Value()), data);
        Value() == step.state && emitted == old(emitted) + step.events
      decreases |buffer| + |pasteBuffer| + |data|, 1
    {
      hide ClosePaste, Extract, EmitAll;
      if |data| == 0 && |buffer| == 0 {
        EmitDataSequence([]);
        return;
      }
      buffer := buffer + data;
      if pasteMode {
        TryClosePaste(pasteBuffer + buffer);
        return;
      }
      var startIndex := IndexOf(buffer, PASTE_START);
      if startIndex != -1 {
        var rest := buffer[startIndex + |PASTE_START|..];
        var sequences, _ := ExtractCompleteSequences(buffer[..startIndex]);
        EmitSequences(sequences);
        pendingKittyPrintableCodepoint := Option.None;
        TryClosePaste(rest);
        return;
      }
      var sequences, remainder := ExtractCompleteSequences(buffer);
      buffer := remainder;
      EmitSequences(sequences);
    }

    /** What the timeout does with an incomplete sequence. */
    method FlushPending()
      modifies this
      ensures var step := Flush(old(Value())); Value() == step.state && emitted == old(emitted) + step.events
    {
      if |buffer| > 0 {
        var sequence := buffer;
        buffer := [];
        pendingKittyPrintableCodepoint := Option.None;
        EmitDataSequence(sequence);
      }
    }
  }
}
