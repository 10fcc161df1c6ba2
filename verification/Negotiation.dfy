/** Keyboard negotiation: replies to the terminal query are filtered out of the input, split or not,
    and every mode that was switched on is switched off again. */
module Negotiation {
  import opened Basics
  import opened Strings
  import opened AnsiStyle

  // ----- Replies

  datatype Reply = KittyFlags(flags: nat) | DeviceAttributes

  const LEAD := "\U{1B}[?"

  predicate Params(s: string) { forall i :: 0 <= i < |s| ==> IsDigit(s[i]) || s[i] == ';' }

  function ParseReply(s: string): Option<Reply> {
    if |s| < 4 || !StartsWith(s, LEAD) then None else
      var body := s[3..|s| - 1];
      if s[|s| - 1] == 'u' && body != "" && Digits(body) then Some(KittyFlags(ParseInt(body).value))
      else if s[|s| - 1] == 'c' && Params(body) then Some(DeviceAttributes)
      else None
  }

  /** Text that may still become a reply. */
  predicate ReplyPrefix(s: string, allowBareEscape: bool) {
    (allowBareEscape && s == "\U{1B}") || s == "\U{1B}[" || (StartsWith(s, LEAD) && Params(s[3..]))
  }

  // ----- What became of the input

  /** Text given to the application, taken as a reply, or thrown away. */
  datatype Entry = Forwarded(text: string) | Answer(text: string, reply: Reply) | Dropped(text: string)

  function LogText(log: seq<Entry>): string {
    if log == [] then "" else LogText(log[..|log| - 1]) + log[|log| - 1].text
  }

  predicate AnswersParse(log: seq<Entry>) {
    forall i :: 0 <= i < |log| && log[i].Answer? ==> ParseReply(log[i].text) == Some(log[i].reply)
  }

  predicate NoDrops(log: seq<Entry>) { forall i :: 0 <= i < |log| ==> !log[i].Dropped? }

  lemma {:induction false} LogSnoc(log: seq<Entry>, e: Entry)
    ensures LogText(log + [e]) == LogText(log) + e.text
  {
    assert (log + [e])[..|log|] == log;
  }

  /** The filter's state: what happened to earlier text, and the fragment held back. */
  datatype Inbox = Inbox(log: seq<Entry>, held: string)

  function Delivered(b: Inbox): string { LogText(b.log) + b.held }

  function Pass(b: Inbox, text: string, handler: bool): Inbox {
    b.(log := b.log + [if handler then Forwarded(text) else Dropped(text)])
  }

  function Flush(b: Inbox, handler: bool): Inbox {
    if b.held == "" then b else Pass(b.(held := ""), b.held, handler)
  }

  function Drop(b: Inbox): Inbox {
    if b.held == "" then b else Inbox(b.log + [Dropped(b.held)], "")
  }

  /** The log accounts for all text handed over, and its answers are replies. */
  predicate Accounts(b: Inbox, delivered: string) { Delivered(b) == delivered && AnswersParse(b.log) }

  /** One sequence while replies are expected. */
  function Filter(b: Inbox, sequence: string, bare: bool, handler: bool): Inbox {
    var whole := b.held + sequence;
    if b.held != "" && ParseReply(whole).Some? then Inbox(b.log + [Answer(whole, ParseReply(whole).value)], "")
    else if b.held != "" && ReplyPrefix(whole, bare) then b.(held := whole)
    else
      var f := Flush(b, handler);
      if ParseReply(sequence).Some? then f.(log := f.log + [Answer(sequence, ParseReply(sequence).value)])
      else if ReplyPrefix(sequence, bare) then f.(held := sequence)
      else Pass(f, sequence, handler)
  }

  /** The reply that a sequence completes, if any. */
  function Recognised(b: Inbox, sequence: string, bare: bool): Option<Reply> {
    var whole := b.held + sequence;
    if b.held != "" && ParseReply(whole).Some? then ParseReply(whole)
    else if b.held != "" && ReplyPrefix(whole, bare) then None
    else ParseReply(sequence)
  }

  /** Nothing is lost, added or reordered. */
  lemma {:induction false} FilterKeepsText(b: Inbox, sequence: string, bare: bool, handler: bool, delivered: string)
    requires Accounts(b, delivered)
    ensures var r := Filter(b, sequence, bare, handler);
      && Accounts(r, delivered + sequence)
      && b.log <= r.log && (handler ==> NoDrops(r.log[|b.log|..]))
  {
    hide ParseReply, ReplyPrefix, Accounts;
    var whole := b.held + sequence;
    var f := Flush(b, handler);
    HoldMore(b, sequence, delivered);
    if b.held != "" && ParseReply(whole).Some? {
      EntryAccounts(b.log, Answer(whole, ParseReply(whole).value), delivered + sequence);
    } else if b.held == "" || !ReplyPrefix(whole, bare) {
      FlushKeeps(b, handler, delivered);
      HoldMore(f, sequence, delivered);
      assert "" + sequence == sequence;
      if ParseReply(sequence).Some? {
        EntryAccounts(f.log, Answer(sequence, ParseReply(sequence).value), delivered + sequence);
      } else {
        EntryAccounts(f.log, if handler then Forwarded(sequence) else Dropped(sequence), delivered + sequence);
      }
    }
  }

  lemma {:induction false} HoldMore(b: Inbox, sequence: string, delivered: string)
    requires Accounts(b, delivered)
    ensures Accounts(b.(held := b.held + sequence), delivered + sequence)
  {
    hide ParseReply, LogText;
    assert LogText(b.log) + (b.held + sequence) == LogText(b.log) + b.held + sequence;
  }

  /** Held text that becomes an entry is still accounted for. */
  lemma {:induction false} EntryAccounts(log: seq<Entry>, e: Entry, delivered: string)
    requires Accounts(Inbox(log, e.text), delivered) && (e.Answer? ==> ParseReply(e.text) == Some(e.reply))
    ensures Accounts(Inbox(log + [e], ""), delivered)
  {
    hide ParseReply, LogText;
    LogSnoc(log, e);
    assert LogText(log + [e]) + "" == LogText(log + [e]);
  }

  // ----- Split replies

  function FilterAll(b: Inbox, parts: seq<string>, bare: bool, handler: bool): Inbox
    decreases |parts|
  {
    if parts == [] then b else FilterAll(Filter(b, parts[0], bare, handler), parts[1..], bare, handler)
  }

  /** Every proper, non-empty part of a reply from its start is held, and is no reply itself. */
  lemma {:induction false} PrefixHeld(reply: string, k: nat)
    requires ParseReply(reply).Some? && 0 < k < |reply|
    ensures ReplyPrefix(reply[..k], true) && ParseReply(reply[..k]).None?
  {
    var p := reply[..k];
    assert reply[..3] == LEAD;
    if k == 1 {
      assert p == "\U{1B}";
    } else if k == 2 {
      assert p == "\U{1B}[";
    } else {
      assert p[..3] == LEAD;
      var body := reply[3..|reply| - 1];
      forall i | 0 <= i < |p[3..]| ensures IsDigit(p[3..][i]) || p[3..][i] == ';' {
        assert p[3..][i] == body[i];
      }
      assert k > 3 ==> p[k - 1] == body[k - 4];
    }
  }

  /** A reply that arrives in any pieces while the query is open is recognised whole, and none of its
      pieces reaches the application. */
  lemma {:induction false} SplitReplyRecognised(b: Inbox, parts: seq<string>, reply: string, handler: bool)
    requires ParseReply(reply).Some? && b.held + Flatten(parts) == reply && |b.held| < |reply|
    requires forall i :: 0 <= i < |parts| ==> parts[i] != ""
    ensures FilterAll(b, parts, true, handler) == Inbox(b.log + [Answer(reply, ParseReply(reply).value)], "")
    decreases |parts|
  {
    hide ParseReply, ReplyPrefix;
    var whole := b.held + parts[0];
    var r := Filter(b, parts[0], true, handler);
    var rest := parts[1..];
    assert whole + Flatten(rest) == reply;
    if rest == [] {
      assert whole == reply;
      assert b.held == "" ==> parts[0] == whole;
      assert FilterAll(r, rest, true, handler) == r;
    } else {
      assert Flatten(rest) != "" by { assert Flatten(rest) == rest[0] + Flatten(rest[1..]); }
      assert whole == reply[..|whole|];
      PrefixHeld(reply, |whole|);
      assert b.held == "" ==> parts[0] == whole;
      assert r == b.(held := whole);
      SplitReplyRecognised(r, rest, reply, handler);
    }
  }

  /** Outside the query a lone ESC is not held, so that the Escape key is not delayed. */
  lemma {:induction false} LateEscapePasses(b: Inbox, handler: bool)
    requires b.held == ""
    ensures Filter(b, "\U{1B}", false, handler) == Pass(b, "\U{1B}", handler)
  {
  }

  // ----- Modes written to the terminal

  datatype Write = Push | Pop | EnableKeys | DisableKeys

  function Count(ws: seq<Write>, w: Write): nat {
    if ws == [] then 0 else Count(ws[..|ws| - 1], w) + (if ws[|ws| - 1] == w then 1 else 0)
  }

  lemma {:induction false} CountSnoc(ws: seq<Write>, x: Write)
    ensures forall w :: Count(ws + [x], w) == Count(ws, w) + (if x == w then 1 else 0)
  {
    assert (ws + [x])[..|ws|] == ws;
  }

  /** What was switched on is on, or was switched off again, but for `extra` pushes made while one was
      outstanding and `stray` pops made while none was. */
  predicate Ledger(ws: seq<Write>, pushed: bool, keys: bool, extra: nat, stray: nat) {
    && Count(ws, Push) + stray == Count(ws, Pop) + extra + (if pushed then 1 else 0)
    && Count(ws, EnableKeys) == Count(ws, DisableKeys) + (if keys then 1 else 0)
  }

  /** Each write keeps the ledger. */
  lemma {:induction false} PushLedger(ws: seq<Write>, pushed: bool, keys: bool, extra: nat, stray: nat)
    requires Ledger(ws, pushed, keys, extra, stray)
    ensures Ledger(ws + [Push], true, keys, if pushed then extra + 1 else extra, stray)
    ensures Ledger(ws + [Pop], false, keys, extra, if pushed then stray else stray + 1)
  {
    hide Count;
    CountSnoc(ws, Push);
    CountSnoc(ws, Pop);
  }

  lemma {:induction false} KeysLedger(ws: seq<Write>, pushed: bool, keys: bool, extra: nat, stray: nat)
    requires Ledger(ws, pushed, keys, extra, stray)
    ensures !keys ==> Ledger(ws + [EnableKeys], pushed, true, extra, stray)
    ensures keys ==> Ledger(ws + [DisableKeys], pushed, false, extra, stray)
  {
    hide Count;
    CountSnoc(ws, EnableKeys);
    CountSnoc(ws, DisableKeys);
  }

  /** Everything but the text: which modes are on, which replies are expected, which timers run.
      `orphans` counts fallback timers whose handle a second start has overwritten, `extra` the starts
      that found an earlier push outstanding, `stray` the pops written while none was. */
  datatype Modes = Modes(
    running: bool, kittyActive: bool, modifyOtherKeys: bool, pushed: bool, negotiating: bool, late: bool, held: bool,
    fallbackTimer: bool, flushTimer: bool, writes: seq<Write>, orphans: nat, extra: nat, stray: nat)

  /** A held fragment always has a timer that will release it, and the ledger of the modes is right. */
  predicate Sound(m: Modes) {
    && !(m.negotiating && m.late) && (m.negotiating ==> m.fallbackTimer)
    && (m.held ==> (m.negotiating && m.fallbackTimer) || (m.late && m.flushTimer))
    && (m.flushTimer ==> m.held)
    && Ledger(m.writes, m.pushed, m.modifyOtherKeys, m.extra, m.stray)
    && (m.extra == 0 ==> Regular(m))
  }

  /** While no start has come too early, replies are expected only under an outstanding push. */
  predicate Regular(m: Modes) {
    && m.orphans == 0 && m.stray == 0
    && (m.kittyActive || m.negotiating || m.late ==> m.pushed) && (m.fallbackTimer ==> m.negotiating)
  }

  function Enabled(m: Modes): (r: Modes)
    ensures r.held == m.held
  {
    if m.kittyActive || m.modifyOtherKeys then m else m.(modifyOtherKeys := true, writes := m.writes + [EnableKeys])
  }

  function Opened(m: Modes): Modes {
    m.(running := true, pushed := true, negotiating := true, late := false, held := false, flushTimer := false,
       fallbackTimer := true, writes := m.writes + [Push],
       orphans := if m.fallbackTimer then m.orphans + 1 else m.orphans,
       extra := if m.pushed then m.extra + 1 else m.extra)
  }

  /** The query went unanswered; a fragment other than ESC waits for its own timer. */
  function TimedOut(m: Modes, orphan: bool, keep: bool): Modes
    requires orphan ==> m.orphans > 0
  {
    Enabled(m.(fallbackTimer := false, negotiating := false, late := true, held := keep, flushTimer := keep,
               orphans := if orphan && !m.fallbackTimer then m.orphans - 1 else m.orphans))
  }

  /** Kitty flags close the query; device attributes close it and fall back to modifyOtherKeys. */
  function AfterReply(m: Modes, reply: Reply): (r: Modes)
    ensures r.held == m.held
  {
    match reply
    case KittyFlags(flags) =>
      if flags == 0 || m.kittyActive then m
      else m.(kittyActive := true, negotiating := false, late := true, fallbackTimer := false)
    case DeviceAttributes => Enabled(m.(negotiating := false, late := true, fallbackTimer := false))
  }

  predicate Pops(m: Modes) { m.pushed || m.kittyActive || m.negotiating }

  /** Every mode that is on is switched off. */
  function Closed(m: Modes): Modes {
    var popped := if Pops(m) then m.writes + [Pop] else m.writes;
    m.(pushed := false, kittyActive := false, modifyOtherKeys := false, negotiating := false, late := false,
       held := false, fallbackTimer := false, flushTimer := false,
       writes := if m.modifyOtherKeys then popped + [DisableKeys] else popped,
       stray := if Pops(m) && !m.pushed then m.stray + 1 else m.stray)
  }

  lemma {:induction false} OpenedSound(m: Modes)
    requires Sound(m)
    ensures Sound(Opened(m))
  {
    hide Ledger;
    PushLedger(m.writes, m.pushed, m.modifyOtherKeys, m.extra, m.stray);
  }

  lemma {:induction false} TimedOutSound(m: Modes, orphan: bool, keep: bool)
    requires Sound(m) && (if orphan then m.orphans > 0 else m.fallbackTimer)
    ensures Sound(TimedOut(m, orphan, keep))
  {
    hide Ledger;
    KeysLedger(m.writes, m.pushed, m.modifyOtherKeys, m.extra, m.stray);
  }

  lemma {:induction false} RepliedSound(m: Modes, reply: Reply)
    requires Sound(m.(held := false, flushTimer := false)) && (m.negotiating || m.late) && !m.held && !m.flushTimer
    ensures Sound(AfterReply(m, reply))
  {
    hide Ledger;
    KeysLedger(m.writes, m.pushed, m.modifyOtherKeys, m.extra, m.stray);
  }

  lemma {:induction false} ClosedSound(m: Modes)
    requires Sound(m)
    ensures Sound(Closed(m))
  {
    hide Ledger;
    PushLedger(m.writes, m.pushed, m.modifyOtherKeys, m.extra, m.stray);
    var stray := if Pops(m) && !m.pushed then m.stray + 1 else m.stray;
    var popped := if Pops(m) then m.writes + [Pop] else m.writes;
    KeysLedger(popped, false, m.modifyOtherKeys, m.extra, stray);
  }

  /** A fragment is held or let go. */
  lemma {:induction false} HeldSound(m: Modes, held: bool)
    requires Sound(m) && (held ==> m.negotiating || m.late)
    ensures Sound(m.(held := held, flushTimer := held && !m.negotiating))
  {
    hide Ledger;
  }

  class ProcessTerminal {
    var inputHandler: bool
    var mode: Modes
    /** The fragment of a reply that is held back. */
    var buffer: string
    ghost var log: seq<Entry>
    /** All text the input buffer has handed over. */
    ghost var delivered: string

    ghost function State(): Inbox
      reads this
    {
      Inbox(log, buffer)
    }

    ghost predicate Valid()
      reads this
    {
      Accounts(State(), delivered) && Sound(mode) && mode.held == (buffer != "")
    }

    constructor ()
      ensures Valid() && mode == STOPPED.mode && log == []
    {
      inputHandler, buffer, log, delivered := false, "", [], "";
      mode := Modes(false, false, false, false, false, false, false, false, false, [], 0, 0, 0);
    }

    /** Throws the held fragment away. */
    method ClearBuffer()
      modifies this`buffer, this`mode, this`log
      ensures buffer == "" && mode == old(mode).(held := false, flushTimer := false) && State() == Drop(old(State()))
    {
      if buffer != "" { log := log + [Dropped(buffer)]; }
      buffer, mode := "", mode.(held := false, flushTimer := false);
    }

    method Forward(text: string)
      modifies this`log
      ensures State() == Pass(old(State()), text, inputHandler)
    {
      log := log + [if inputHandler then Forwarded(text) else Dropped(text)];
    }

    method FlushBuffer()
      modifies this`buffer, this`mode, this`log
      ensures buffer == "" && State() == Flush(old(State()), inputHandler)
      ensures mode == if old(buffer) == "" then old(mode) else old(mode).(held := false, flushTimer := false)
    {
      if buffer == "" { return; }
      var sequence := buffer;
      buffer, mode := "", mode.(held := false, flushTimer := false);
      Forward(sequence);
    }

    method EnableModifyOtherKeys()
      modifies this`mode
      ensures mode == Enabled(old(mode))
    {
      if mode.kittyActive || mode.modifyOtherKeys { return; }
      mode := mode.(writes := mode.writes + [EnableKeys], modifyOtherKeys := true);
    }

    /** Opens the query: pushes the Kitty flags and waits for replies. */
    method Start()
      requires Valid()
      modifies this
      ensures Valid() && inputHandler && mode == Opened(old(mode)) && State() == Drop(old(State()))
        && delivered == old(delivered)
    {
      hide Accounts, Sound, Drop;
      DropKeeps(State(), delivered);
      OpenedSound(mode);
      mode := mode.(extra := if mode.pushed then mode.extra + 1 else mode.extra);
      inputHandler, mode := true, mode.(running := true, pushed := true, negotiating := true, late := false);
      ClearBuffer();
      mode := mode.(writes := mode.writes + [Push]);
      mode := mode.(fallbackTimer := true, orphans := if mode.fallbackTimer then mode.orphans + 1 else mode.orphans);
    }

    /** The query goes unanswered. The timer may be one that a second start left behind. */
    method FallbackFires(orphan: bool)
      requires Valid() && if orphan then mode.orphans > 0 else mode.fallbackTimer
      modifies this
      ensures Valid() && delivered == old(delivered) && inputHandler == old(inputHandler)
      ensures mode == TimedOut(old(mode), orphan, buffer != "")
      ensures State() == if old(buffer) == "\U{1B}" then Flush(old(State()), inputHandler) else old(State())
    {
      hide Accounts, Sound, Flush, Enabled;
      FlushKeeps(State(), inputHandler, delivered);
      TimedOutSound(mode, orphan, buffer != "" && buffer != "\U{1B}");
      HeldTimer(mode);
      mode := mode.(fallbackTimer := false, orphans := if orphan && !mode.fallbackTimer then mode.orphans - 1
      else mode.orphans);
      mode := mode.(negotiating := false, late := true);
      if buffer == "\U{1B}" {
        FlushBuffer();
      } else if buffer != "" {
        mode := mode.(flushTimer := true);
      }
      EnableModifyOtherKeys();
    }

    method FlushFires()
      requires Valid() && mode.flushTimer
      modifies this
      ensures Valid() && State() == Flush(old(State()), inputHandler) && inputHandler == old(inputHandler)
      ensures mode == old(mode).(held := false, flushTimer := false) && delivered == old(delivered)
    {
      hide Accounts, Sound, Flush;
      FlushKeeps(State(), inputHandler, delivered);
      HeldTimer(mode);
      HeldSound(mode, false);
      mode := mode.(flushTimer := false);
      FlushBuffer();
    }

    /** Acts on a reply. */
    method Handle(reply: Reply)
      modifies this`mode
      ensures mode == AfterReply(old(mode), reply)
    {
      hide Enabled;
      match reply {
        case KittyFlags(flags) =>
          if flags != 0 && !mode.kittyActive {
            mode := mode.(kittyActive := true, negotiating := false, late := true, fallbackTimer := false);
          }
        case DeviceAttributes =>
          mode := mode.(negotiating := false, late := true, fallbackTimer := false);
          EnableModifyOtherKeys();
      }
    }

    /** Recognises a reply in the held fragment and the new sequence; text that is neither a reply nor
        the start of one is left to the caller. */
    method Read(sequence: string, bare: bool) returns (reply: Option<Reply>, pending: bool)
      requires mode.held == (buffer != "") && (mode.flushTimer ==> mode.held)
      modifies this`buffer, this`mode, this`log
      ensures mode == old(mode).(held := buffer != "", flushTimer := false) && pending == (buffer != "")
      ensures reply == Recognised(old(State()), sequence, bare) && (pending ==> reply.None?)
      ensures var r := Filter(old(State()), sequence, bare, inputHandler);
        if pending || reply.Some? then State() == r else r == Pass(State(), sequence, inputHandler)
    {
      hide ParseReply, ReplyPrefix, Filter, Recognised, Pass, Flush;
      FilterHeld(State(), sequence, bare, inputHandler);
      if buffer != "" {
        var bufferedSequence := buffer + sequence;
        reply := ParseReply(bufferedSequence);
        if reply.Some? {
          buffer, mode := "", mode.(held := false, flushTimer := false);
          log := log + [Answer(bufferedSequence, reply.value)];
          return reply, false;
        }
        if ReplyPrefix(bufferedSequence, bare) {
          buffer, mode := bufferedSequence, mode.(held := true, flushTimer := false);
          return None, true;
        }
        FlushBuffer();
      }
      reply, pending := ReadFresh(sequence, bare);
    }

    /** The same with no fragment held. */
    method ReadFresh(sequence: string, bare: bool) returns (reply: Option<Reply>, pending: bool)
      requires buffer == "" && !mode.held && !mode.flushTimer
      modifies this`buffer, this`mode, this`log
      ensures mode == old(mode).(held := buffer != "", flushTimer := false) && pending == (buffer != "")
      ensures reply == Recognised(old(State()), sequence, bare) && (pending ==> reply.None?)
      ensures var r := Filter(old(State()), sequence, bare, inputHandler);
        if pending || reply.Some? then State() == r else r == Pass(State(), sequence, inputHandler)
    {
      hide ParseReply, ReplyPrefix;
      EmptyIsNothing(bare);
      reply := ParseReply(sequence);
      if reply.Some? {
        log := log + [Answer(sequence, reply.value)];
        return reply, false;
      }
      if ReplyPrefix(sequence, bare) {
        buffer, mode := sequence, mode.(held := true, flushTimer := false);
        return None, true;
      }
      return None, false;
    }

    /** One sequence from the input buffer. */
    method Receive(sequence: string)
      requires Valid()
      modifies this
      ensures Valid() && delivered == old(delivered) + sequence && inputHandler == old(inputHandler)
      ensures State() == Received(old(State()), old(mode), sequence, inputHandler)
      ensures mode == ReceivedMode(old(State()), old(mode), sequence, buffer != "")
      ensures old(log) <= log && (inputHandler ==> NoDrops(log[|old(log)|..]))
    {
      hide Accounts, Sound, Filter, Recognised, Pass, NoDrops, AfterReply;
      ReceiveSound(State(), mode, sequence, inputHandler);
      ReceivedKeepsText(State(), mode, sequence, inputHandler, delivered);
      delivered := delivered + sequence;
      if mode.negotiating {
        var reply, pending := Read(sequence, true);
        if pending { return; }
        if reply.Some? {
          Handle(reply.value);
          return;
        }
      }
      if mode.late {
        var reply, pending := Read(sequence, false);
        if pending {
          mode := mode.(flushTimer := true);
          return;
        }
        if reply.Some? {
          Handle(reply.value);
          return;
        }
      }
      Forward(sequence);
    }

    /** Switches off what is on, so that late key releases arrive in plain form. */
    method SwitchOff()
      requires Valid()
      modifies this
      ensures Valid() && mode == Closed(old(mode)) && State() == Drop(old(State()))
      ensures delivered == old(delivered) && inputHandler == old(inputHandler)
    {
      hide Accounts, Sound, Drop;
      DropKeeps(State(), delivered);
      ClosedSound(mode);
      var shouldDisableKittyProtocol := mode.pushed || mode.kittyActive || mode.negotiating;
      mode := mode.(late := false);
      ClearBuffer();
      mode := mode.(fallbackTimer := false);
      if shouldDisableKittyProtocol {
        mode := mode.(stray := if mode.pushed then mode.stray else mode.stray + 1);
        mode := mode.(writes := mode.writes + [Pop], pushed := false, kittyActive := false);
      }
      mode := mode.(negotiating := false);
      if mode.modifyOtherKeys {
        mode := mode.(writes := mode.writes + [DisableKeys], modifyOtherKeys := false);
      }
    }

    /** Draining begins: input is thrown away until it ends. */
    method BeginDrain() returns (previousHandler: bool)
      requires Valid()
      modifies this
      ensures Valid() && !inputHandler && previousHandler == old(inputHandler) && delivered == old(delivered)
      ensures mode == Closed(old(mode)) && State() == Drop(old(State()))
      ensures (Undone(mode.writes) <==> mode.extra == mode.stray) && KeysUndone(mode.writes)
    {
      hide Accounts, Drop, Sound, Undone, KeysUndone;
      ClosedUndone(mode);
      SwitchOff();
      previousHandler := inputHandler;
      inputHandler := false;
    }

    method EndDrain(previousHandler: bool)
      requires Valid()
      modifies this`inputHandler
      ensures Valid() && inputHandler == previousHandler
    {
      inputHandler := previousHandler;
    }

    /** After a stop every mode has been switched off as often as on. */
    method Stop()
      requires Valid()
      modifies this
      ensures Valid() && !inputHandler && delivered == old(delivered)
      ensures mode == Closed(old(mode)).(running := false) && State() == Drop(old(State()))
      ensures (Undone(mode.writes) <==> mode.extra == mode.stray) && KeysUndone(mode.writes)
    {
      hide Accounts, Drop, Sound, Undone, KeysUndone;
      ClosedUndone(mode);
      SwitchOff();
      mode := mode.(running := false);
      inputHandler := false;
    }
  }

  predicate KeysUndone(ws: seq<Write>) { Count(ws, EnableKeys) == Count(ws, DisableKeys) }

  /** Every mode was switched off as often as on. */
  predicate Undone(ws: seq<Write>) { Count(ws, Push) == Count(ws, Pop) && KeysUndone(ws) }

  lemma {:induction false} ClosedUndone(m: Modes)
    requires Sound(m)
    ensures var c := Closed(m);
      && (Undone(c.writes) <==> c.extra == c.stray) && KeysUndone(c.writes)
      && (c.extra == 0 ==> c.stray == 0) && Sound(c.(running := false))
  {
    hide Count;
    ClosedSound(m);
  }

  lemma {:induction false} HeldTimer(m: Modes)
    requires Sound(m)
    ensures m.flushTimer ==> m.held
  {
  }

  /** What a sequence does to the text. */
  function Received(b: Inbox, m: Modes, sequence: string, handler: bool): Inbox {
    if m.negotiating || m.late then Filter(b, sequence, m.negotiating, handler) else Pass(b, sequence, handler)
  }

  /** What a sequence does to the modes. */
  function ReceivedMode(b: Inbox, m: Modes, sequence: string, held: bool): (r: Modes)
    ensures r.held == held
  {
    var reply := Recognised(b, sequence, m.negotiating);
    var next := m.(held := held, flushTimer := held && !m.negotiating);
    if (m.negotiating || m.late) && reply.Some? then AfterReply(next, reply.value) else next
  }

  lemma {:induction false} ReceivedKeepsText(b: Inbox, m: Modes, sequence: string, handler: bool, delivered: string)
    requires Accounts(b, delivered) && (b.held != "" ==> m.negotiating || m.late)
    ensures var r := Received(b, m, sequence, handler);
      Accounts(r, delivered + sequence) && b.log <= r.log && (handler ==> NoDrops(r.log[|b.log|..]))
  {
    hide ParseReply, LogText, Filter;
    if m.negotiating || m.late {
      FilterKeepsText(b, sequence, m.negotiating, handler, delivered);
    } else {
      LogSnoc(b.log, if handler then Forwarded(sequence) else Dropped(sequence));
    }
  }

  /** The modes stay sound whatever arrives. */
  lemma {:induction false} ReceiveSound(b: Inbox, m: Modes, sequence: string, handler: bool)
    requires Sound(m) && m.held == (b.held != "")
    ensures m.flushTimer ==> m.held
    ensures !(m.negotiating && m.late) && (m.held ==> m.negotiating || m.late)
    ensures var r := Received(b, m, sequence, handler); Sound(ReceivedMode(b, m, sequence, r.held != ""))
  {
    hide Ledger, AfterReply, ParseReply, ReplyPrefix;
    var reply := Recognised(b, sequence, m.negotiating);
    var r := Received(b, m, sequence, handler);
    HeldSound(m, r.held != "");
    if (m.negotiating || m.late) && reply.Some? {
      RepliedSound(m.(held := false, flushTimer := false), reply.value);
    }
  }

  /** With a fragment held, it is either completed, extended, or let go before the rest is read. */
  lemma {:induction false} FilterHeld(b: Inbox, sequence: string, bare: bool, handler: bool)
    ensures var whole, r, reply := b.held + sequence, Filter(b, sequence, bare, handler), Recognised(b, sequence, bare);
      && Flush(b, handler).held == ""
      && (b.held == "" ==> Flush(b, handler) == b)
      && (b.held != "" ==>
            if ParseReply(whole).Some? then
              r == Inbox(b.log + [Answer(whole, ParseReply(whole).value)], "") && reply == ParseReply(whole)
            else if ReplyPrefix(whole, bare) then
              r == Inbox(b.log, whole) && whole != "" && reply == None
            else
              var f := Flush(b, handler);
              r == Filter(f, sequence, bare, handler) && reply == Recognised(f, sequence, bare))
  {
    hide ParseReply, ReplyPrefix;
  }

  lemma {:induction false} EmptyIsNothing(bare: bool)
    ensures ParseReply("").None? && !ReplyPrefix("", bare)
  {
  }

  lemma {:induction false} DropKeeps(b: Inbox, delivered: string)
    requires Accounts(b, delivered)
    ensures Accounts(Drop(b), delivered)
  {
    hide Accounts;
    EntryAccounts(b.log, Dropped(b.held), delivered);
  }

  lemma {:induction false} FlushKeeps(b: Inbox, handler: bool, delivered: string)
    requires Accounts(b, delivered)
    ensures Accounts(Flush(b, handler), delivered)
  {
    hide Accounts;
    EntryAccounts(b.log, if handler then Forwarded(b.held) else Dropped(b.held), delivered);
  }

  // ----- Whole runs

  datatype Event =
    | Starts | Arrives(sequence: string) | FallbackTick(orphan: bool) | FlushTick | DrainBegins | DrainEnds | Stops

  datatype World = World(box: Inbox, mode: Modes, handler: bool, delivered: string)

  ghost predicate Consistent(w: World) {
    Accounts(w.box, w.delivered) && Sound(w.mode) && w.mode.held == (w.box.held != "")
  }

  predicate Enables(w: World, e: Event) {
    match e
    case FallbackTick(orphan) => if orphan then w.mode.orphans > 0 else w.mode.fallbackTimer
    case FlushTick => w.mode.flushTimer
    case _ => true
  }

  function Step(w: World, e: Event): World
    requires Enables(w, e)
  {
    match e
    case Starts => World(Drop(w.box), Opened(w.mode), true, w.delivered)
    case Arrives(s) =>
      var box := Received(w.box, w.mode, s, w.handler);
      World(box, ReceivedMode(w.box, w.mode, s, box.held != ""), w.handler, w.delivered + s)
    case FallbackTick(orphan) =>
      var box := if w.box.held == "\U{1B}" then Flush(w.box, w.handler) else w.box;
      World(box, TimedOut(w.mode, orphan, box.held != ""), w.handler, w.delivered)
    case FlushTick => World(Flush(w.box, w.handler), w.mode.(held := false, flushTimer := false), w.handler,
        w.delivered)
    case DrainBegins => World(Drop(w.box), Closed(w.mode), false, w.delivered)
    case DrainEnds => w.(handler := true)
    case Stops => World(Drop(w.box), Closed(w.mode).(running := false), false, w.delivered)
  }

  lemma {:induction false} StepConsistent(w: World, e: Event)
    requires Consistent(w) && Enables(w, e)
    ensures Consistent(Step(w, e))
  {
    hide Accounts, Sound, Received, ReceivedMode, Closed, Enabled, AfterReply;
    match e {
      case Starts => DropKeeps(w.box, w.delivered); OpenedSound(w.mode);
      case Arrives(s) =>
        ReceiveSound(w.box, w.mode, s, w.handler);
        ReceivedKeepsText(w.box, w.mode, s, w.handler, w.delivered);
      case FallbackTick(orphan) =>
        FlushKeeps(w.box, w.handler, w.delivered);
        TimedOutSound(w.mode, orphan, w.box.held != "" && w.box.held != "\U{1B}");
      case FlushTick => FlushKeeps(w.box, w.handler, w.delivered); HeldSound(w.mode, false);
      case DrainBegins => DropKeeps(w.box, w.delivered); ClosedSound(w.mode); ClosedHeld(w.mode);
      case DrainEnds =>
      case Stops => DropKeeps(w.box, w.delivered); ClosedUndone(w.mode); ClosedHeld(w.mode);
    }
  }

  lemma {:induction false} ClosedHeld(m: Modes)
    ensures !Closed(m).held
  {
  }

  ghost predicate IsRun(ws: seq<World>, es: seq<Event>) {
    && |ws| == |es| + 1
    && forall i :: 0 <= i < |es| ==> Enables(ws[i], es[i]) && ws[i + 1] == Step(ws[i], es[i])
  }

  const STOPPED := World(Inbox([], ""),
      Modes(false, false, false, false, false, false, false, false, false, [], 0, 0, 0), false, "")

  /** The starts that found a push outstanding. */
  ghost function ExtraPushes(ws: seq<World>, es: seq<Event>): nat
    requires |ws| == |es| + 1
  {
    if es == [] then 0 else
      var k := |es| - 1;
      ExtraPushes(ws[..k + 1], es[..k]) + (if es[k].Starts? && ws[k].mode.pushed then 1 else 0)
  }

  /** The drains and stops that popped although no push was outstanding: a query or an active protocol that a
      timer left behind by an earlier start had brought about. */
  ghost function StrayPops(ws: seq<World>, es: seq<Event>): nat
    requires |ws| == |es| + 1
  {
    if es == [] then 0 else
      var k := |es| - 1;
      StrayPops(ws[..k + 1], es[..k])
      + (if Closes(es[k]) && !ws[k].mode.pushed && (ws[k].mode.kittyActive || ws[k].mode.negotiating) then 1 else 0)
  }

  predicate Closes(e: Event) { e.Stops? || e.DrainBegins? }

  /** Over every run: the text handed over is exactly what was forwarded, answered, thrown away and
      still held, in order. The modes balance: pushes and stray pops are pops, extra pushes and the one
      outstanding, and modifyOtherKeys was switched off as often as on but for the one that is on. */
  lemma {:induction false} RunAccounts(ws: seq<World>, es: seq<Event>)
    requires IsRun(ws, es) && ws[0] == STOPPED
    ensures var v := ws[|es|];
      && Consistent(v)
      && Ledger(v.mode.writes, v.mode.pushed, v.mode.modifyOtherKeys, ExtraPushes(ws, es), StrayPops(ws, es))
    ensures ExtraPushes(ws, es) == 0 ==> StrayPops(ws, es) == 0
  {
    hide Accounts, Ledger, Step, Regular;
    RunConsistent(ws, es);
  }

  lemma {:induction false} RunConsistent(ws: seq<World>, es: seq<Event>)
    requires IsRun(ws, es) && ws[0] == STOPPED
    ensures var v := ws[|es|]; Consistent(v) && v.mode.extra == ExtraPushes(ws, es) && v.mode.stray == StrayPops(ws, es)
    ensures ExtraPushes(ws, es) == 0 ==> StrayPops(ws, es) == 0
    decreases |es|
  {
    hide Accounts, Sound, Step;
    if es == [] {
      StoppedConsistent();
    } else {
      var k := |es| - 1;
      assert IsRun(ws[..k + 1], es[..k]);
      RunConsistent(ws[..k + 1], es[..k]);
      StepConsistent(ws[k], es[k]);
      assert ws[k + 1] == Step(ws[k], es[k]);
      StepCounts(ws[k], es[k]);
    }
    NoExtraNoStray(ws[|es|].mode);
  }

  lemma {:induction false} NoExtraNoStray(m: Modes)
    requires Sound(m)
    ensures m.extra == 0 ==> m.stray == 0
  {
    hide Ledger;
  }

  lemma {:induction false} StepCounts(w: World, e: Event)
    requires Enables(w, e)
    ensures var v := Step(w, e).mode;
      && v.extra == w.mode.extra + (if e.Starts? && w.mode.pushed then 1 else 0)
      && v.stray == w.mode.stray
                    + (if Closes(e) && !w.mode.pushed && (w.mode.kittyActive || w.mode.negotiating) then 1 else 0)
  {
    hide Received, ReceivedMode, TimedOut, Drop, Flush;
    if e.Arrives? {
      ReceivedCounts(w.box, w.mode, e.sequence, Received(w.box, w.mode, e.sequence, w.handler).held != "");
    }
    if e.FallbackTick? {
      var box := if w.box.held == "\U{1B}" then Flush(w.box, w.handler) else w.box;
      TimedOutCounts(w.mode, e.orphan, box.held != "");
    }
  }

  lemma {:induction false} ReceivedCounts(b: Inbox, m: Modes, sequence: string, held: bool)
    ensures var r := ReceivedMode(b, m, sequence, held); r.extra == m.extra && r.stray == m.stray
  {
    hide Recognised;
  }

  lemma {:induction false} TimedOutCounts(m: Modes, orphan: bool, keep: bool)
    requires orphan ==> m.orphans > 0
    ensures var r := TimedOut(m, orphan, keep); r.extra == m.extra && r.stray == m.stray
  {
  }

  /** So after a drain or a stop every mode has been switched off as often as on if and only if there were
      as many stray pops as extra pushes, in particular when no start found a push outstanding; and
      modifyOtherKeys always has. */
  lemma {:induction false} UndoneExactly(ws: seq<World>, es: seq<Event>)
    requires IsRun(ws, es) && ws[0] == STOPPED && es != [] && Closes(es[|es| - 1])
    ensures Undone(ws[|es|].mode.writes) <==> ExtraPushes(ws, es) == StrayPops(ws, es)
    ensures KeysUndone(ws[|es|].mode.writes)
    ensures ExtraPushes(ws, es) == 0 ==> Undone(ws[|es|].mode.writes)
  {
    hide Step, Count, Accounts, Sound;
    var k := |es| - 1;
    RunAccounts(ws, es);
    assert Enables(ws[k], es[k]) && ws[k + 1] == Step(ws[k], es[k]);
    ClosedModes(ws[k], es[k]);
  }

  lemma {:induction false} ClosedModes(w: World, e: Event)
    requires Enables(w, e) && Closes(e)
    ensures var v := Step(w, e).mode; !v.pushed && !v.modifyOtherKeys
  {
  }

  lemma {:induction false} StoppedConsistent()
    ensures Consistent(STOPPED)
  {
  }

  // ----- Between a start and the next drain or stop

  /** Input and timers, but no start, drain or stop. */
  predicate Undisturbed(es: seq<Event>) {
    forall i :: 0 <= i < |es| ==> es[i].Arrives? || es[i].FallbackTick? || es[i].FlushTick?
  }

  /** The text that arrives. */
  function Arrived(es: seq<Event>): string {
    if es == [] then "" else
      Arrived(es[..|es| - 1]) + (if es[|es| - 1].Arrives? then es[|es| - 1].sequence else "")
  }

  /** The log has grown, and not by dropped text. */
  predicate GrowsWhole(before: seq<Entry>, after: seq<Entry>) {
    before <= after && NoDrops(after[|before|..])
  }

  lemma {:induction false} GrowsTwice(a: seq<Entry>, b: seq<Entry>, c: seq<Entry>)
    requires GrowsWhole(a, b) && GrowsWhole(b, c)
    ensures GrowsWhole(a, c)
  {
    assert c[|a|..] == b[|a|..] + c[|b|..];
  }

  lemma {:induction false} FlushGrows(b: Inbox)
    ensures GrowsWhole(b.log, Flush(b, true).log)
  {
  }

  lemma {:induction false} StepGrows(w: World, e: Event)
    requires Consistent(w) && Enables(w, e) && w.handler && Undisturbed([e])
    ensures var v := Step(w, e);
      && GrowsWhole(w.box.log, v.box.log) && v.handler
           && v.delivered == w.delivered + (if e.Arrives? then e.sequence else "")
  {
    hide Accounts, Received, ReceivedMode, Closed, Enabled, TimedOut, Flush, NoDrops;
    assert [e][0] == e;
    FlushGrows(w.box);
    GrowsNothing(w.box.log);
    if e.Arrives? { ReceivedKeepsText(w.box, w.mode, e.sequence, true, w.delivered); }
  }

  lemma {:induction false} GrowsNothing(log: seq<Entry>)
    ensures GrowsWhole(log, log)
  {
  }

  /** Between a start and the next drain or stop nothing is lost: over any input and timers the log
      grows by forwarded text and answers only, which with the fragment held at the end is the
      fragment held at the beginning and all text that arrived, in order. */
  lemma {:induction false} SpanLosesNothing(ws: seq<World>, es: seq<Event>)
    requires IsRun(ws, es) && Consistent(ws[0]) && ws[0].handler && Undisturbed(es)
    ensures var v := ws[|es|];
      && Consistent(v) && v.handler && GrowsWhole(ws[0].box.log, v.box.log)
      && LogText(v.box.log[|ws[0].box.log|..]) + v.box.held == ws[0].box.held + Arrived(es)
  {
    hide Consistent, LogText, Arrived, GrowsWhole, Step;
    SpanGrows(ws, es);
    SpanText(ws[0], ws[|es|], Arrived(es));
  }

  lemma {:induction false} SpanGrows(ws: seq<World>, es: seq<Event>)
    requires IsRun(ws, es) && Consistent(ws[0]) && ws[0].handler && Undisturbed(es)
    ensures var v := ws[|es|];
      && Consistent(v) && v.handler && GrowsWhole(ws[0].box.log, v.box.log)
           && v.delivered == ws[0].delivered + Arrived(es)
    decreases |es|
  {
    hide Consistent, Step, GrowsWhole;
    GrowsNothing(ws[0].box.log);
    if es != [] {
      var k := |es| - 1;
      SpanGrows(ws[..k + 1], es[..k]);
      assert Enables(ws[k], es[k]) && ws[k + 1] == Step(ws[k], es[k]);
      StepConsistent(ws[k], es[k]);
      StepGrows(ws[k], es[k]);
      GrowsTwice(ws[0].box.log, ws[k].box.log, ws[k + 1].box.log);
      Reassociate(ws[0].delivered, Arrived(es[..k]), if es[k].Arrives? then es[k].sequence else "");
    }
  }

  lemma {:induction false} LogConcat(a: seq<Entry>, b: seq<Entry>)
    ensures LogText(a + b) == LogText(a) + LogText(b)
    decreases |b|
  {
    hide LogText;
    if b == [] {
      assert a + b == a;
      NothingLogged();
    } else {
      var k := |b| - 1;
      assert a + b == (a + b[..k]) + [b[k]] && b == b[..k] + [b[k]];
      LogConcat(a, b[..k]);
      LogSnoc(a + b[..k], b[k]);
      LogSnoc(b[..k], b[k]);
      Reassociate(LogText(a), LogText(b[..k]), b[k].text);
    }
  }

  lemma {:induction false} NothingLogged()
    ensures LogText([]) == ""
  {
  }

  lemma {:induction false} SpanText(w: World, v: World, text: string)
    requires Consistent(w) && Consistent(v) && GrowsWhole(w.box.log, v.box.log) && v.delivered == w.delivered + text
    ensures LogText(v.box.log[|w.box.log|..]) + v.box.held == w.box.held + text
  {
    hide LogText, Sound, AnswersParse, NoDrops;
    var a, b := w.box.log, v.box.log[|w.box.log|..];
    assert v.box.log == a + b;
    LogConcat(a, b);
    Reassociate(LogText(a), LogText(b), v.box.held);
    Reassociate(LogText(a), w.box.held, text);
    SamePrefix(LogText(a), LogText(b) + v.box.held, w.box.held + text);
  }

  lemma {:induction false} SamePrefix(p: string, x: string, y: string)
    requires p + x == p + y
    ensures x == y
  {
    assert x == (p + x)[|p|..] && y == (p + y)[|p|..];
  }

  /** A second start without a stop pushes again, and one stop pops only once. */
  lemma {:induction false} DoubleStartLeaks()
    ensures var w := Step(Step(Step(STOPPED, Starts), Starts), Stops);
      w.mode.writes == [Push, Push, Pop] && !w.mode.pushed && !Undone(w.mode.writes)
  {
    hide Count;
    var w := Step(Step(Step(STOPPED, Starts), Starts), Stops);
    assert w.mode.writes == [] + [Push] + [Push] + [Pop];
    NothingWritten();
    CountSnoc([], Push);
    CountSnoc([] + [Push], Push);
    CountSnoc([] + [Push] + [Push], Pop);
  }

  lemma {:induction false} NothingWritten()
    ensures forall w :: Count([], w) == 0
  {
  }
}
