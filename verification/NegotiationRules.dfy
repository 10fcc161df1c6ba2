/** Which input counts as a reply to the keyboard query, and what a reply changes. */
module NegotiationRules {
  import opened Basics
  import opened Strings
  import opened AnsiStyle
  import opened Negotiation

  // ----- The form of replies

  predicate Number(d: string) { d != "" && Digits(d) }
  predicate Zero(d: string) { forall i :: 0 <= i < |d| ==> d[i] == '0' }

  /** `ESC [ ? digits u`, where the digits are all zero exactly if no flag is reported. */
  ghost predicate KittyReply(s: string, anyFlag: bool) {
    exists d :: s == LEAD + d + "u" && Number(d) && Zero(d) == !anyFlag
  }

  /** `ESC [ ?`, digits and semicolons, `c`. */
  ghost predicate AttributesReply(s: string) { exists p :: s == LEAD + p + "c" && Params(p) }

  lemma {:induction false} ZeroDigits(d: string)
    requires Number(d)
    ensures ParseInt(d).Some? && (ParseInt(d).value == 0 <==> Zero(d))
    decreases |d|
  {
    var init := d[..|d| - 1];
    if init != "" {
      ZeroDigits(init);
      assert forall i :: 0 <= i < |init| ==> d[i] == init[i];
    }
  }

  lemma {:induction false} LeadSplit(s: string)
    requires |s| >= 4 && StartsWith(s, LEAD)
    ensures s == LEAD + s[3..|s| - 1] + [s[|s| - 1]]
  {
    assert s == s[..3] + s[3..|s| - 1] + [s[|s| - 1]];
  }

  lemma {:induction false} LeadParts(body: string, last: char)
    ensures var s := LEAD + body + [last];
      |s| >= 4 && StartsWith(s, LEAD) && s[3..|s| - 1] == body && s[|s| - 1] == last
  {
    var s := LEAD + body + [last];
    assert s[..3] == LEAD;
  }

  lemma {:induction false} KittyRead(d: string)
    requires Number(d)
    ensures ParseInt(d).Some? && ParseReply(LEAD + d + "u") == Some(KittyFlags(ParseInt(d).value))
    ensures ParseInt(d).value == 0 <==> Zero(d)
  {
    hide ParseInt, StartsWith;
    LeadParts(d, 'u');
    ZeroDigits(d);
  }

  lemma {:induction false} AttributesRead(p: string)
    requires Params(p)
    ensures ParseReply(LEAD + p + "c") == Some(DeviceAttributes)
  {
    hide ParseInt, StartsWith;
    LeadParts(p, 'c');
  }

  lemma {:induction false} ReplyShape(s: string)
    requires ParseReply(s).Some?
    ensures var d := s[3..|s| - 1]; var r := ParseReply(s).value;
      && |s| >= 4
      && (r.KittyFlags? ==> s == LEAD + d + "u" && Number(d) && ParseInt(d) == Some(r.flags))
      && (r.DeviceAttributes? ==> s == LEAD + d + "c" && Params(d))
  {
    hide ParseInt, StartsWith;
    LeadSplit(s);
    if Number(s[3..|s| - 1]) { ZeroDigits(s[3..|s| - 1]); }
  }

  /** The two kinds of reply are recognised exactly by their form. */
  lemma {:induction false} ReplyExactly(s: string)
    ensures KittyReply(s, true) <==> exists n: nat :: n != 0 && ParseReply(s) == Some(KittyFlags(n))
    ensures KittyReply(s, false) <==> ParseReply(s) == Some(KittyFlags(0))
    ensures AttributesReply(s) <==> ParseReply(s) == Some(DeviceAttributes)
  {
    hide ParseInt, ParseReply, Zero, Number, Params;
    if ParseReply(s).Some? {
      ReplyShape(s);
      var d := s[3..|s| - 1];
      if ParseReply(s).value.KittyFlags? {
        KittyRead(d);
        assert KittyReply(s, !Zero(d));
      }
    }
    if d :| s == LEAD + d + "u" && Number(d) { KittyRead(d); }
    if p :| s == LEAD + p + "c" && Params(p) { AttributesRead(p); }
  }

  /** Input is held back exactly if it is the beginning of some reply; a lone ESC only while the query is
      open. */
  lemma {:induction false} HeldExactly(s: string, bare: bool)
    ensures ReplyPrefix(s, bare)
      <==> (bare || s != "\U{1B}")
           && exists reply :: ParseReply(reply).Some? && 0 < |s| < |reply| && s == reply[..|s|]
  {
    hide ParseReply;
    if reply :| ParseReply(reply).Some? && 0 < |s| < |reply| && s == reply[..|s|] {
      PrefixHeld(reply, |s|);
      if s != "\U{1B}" { NotAlone(s); }
    }
    if ReplyPrefix(s, bare) { Completes(s); }
  }

  lemma {:induction false} NotAlone(s: string)
    requires ReplyPrefix(s, true) && s != "\U{1B}"
    ensures ReplyPrefix(s, false)
  {
  }

  lemma {:induction false} Completes(s: string)
    requires ReplyPrefix(s, true)
    ensures exists reply :: ParseReply(reply).Some? && 0 < |s| < |reply| && s == reply[..|s|]
  {
    var p := if StartsWith(s, LEAD) then s[3..] else "";
    LeadParts(p, 'c');
    var reply := LEAD + p + "c";
    assert ParseReply(reply) == Some(DeviceAttributes);
    if StartsWith(s, LEAD) {
      assert s == LEAD + p && s == reply[..|s|];
    } else {
      assert s == reply[..|s|];
    }
  }

  // ----- What arrives when nothing is held

  /** Input that begins no reply is passed on at once; a whole reply is taken out of the input. */
  lemma {:induction false} OrdinaryPasses(w: World, s: string)
    requires w.box.held == "" && s != ""
    ensures var v := Step(w, Arrives(s)); var expecting := w.mode.negotiating || w.mode.late;
      && (!expecting || (ParseReply(s).None? && !ReplyPrefix(s, w.mode.negotiating)) ==>
            v.box == Inbox(w.box.log + [if w.handler then Forwarded(s) else Dropped(s)], ""))
      && (expecting && ParseReply(s).Some? ==> v.box == Inbox(w.box.log + [Answer(s, ParseReply(s).value)], ""))
  {
    hide ParseReply, ReplyPrefix, ReceivedMode;
  }

  // ----- What a reply changes

  /** The reply that the sequence completes while one is expected. */
  function Completed(w: World, s: string): Option<Reply> {
    if w.mode.negotiating || w.mode.late then Recognised(w.box, s, w.mode.negotiating) else None
  }

  /** The query is over: no timer will fall back, and a reply that comes now is late. */
  predicate QueryOver(m: Modes) { !m.negotiating && m.late && !m.fallbackTimer }

  /** The first reply with a Kitty flag activates the protocol and closes the query; other Kitty replies
      change no mode; device attributes close the query and switch modifyOtherKeys on unless it or the
      protocol is on. Nothing else is written. */
  lemma {:induction false} ReplyActs(w: World, s: string)
    requires Completed(w, s).Some?
    ensures var m, v, reply := w.mode, Step(w, Arrives(s)).mode, Completed(w, s).value;
      && v.pushed == m.pushed
      && (reply.KittyFlags? ==> v.writes == m.writes && v.modifyOtherKeys == m.modifyOtherKeys)
      && (reply.KittyFlags? && reply.flags != 0 ==> v.kittyActive)
      && (reply.KittyFlags? && reply.flags != 0 && !m.kittyActive ==> QueryOver(v))
      && (reply.KittyFlags? && (reply.flags == 0 || m.kittyActive) ==>
            v.kittyActive == m.kittyActive && v.negotiating == m.negotiating && v.late == m.late
            && v.fallbackTimer == m.fallbackTimer)
      && (reply.DeviceAttributes? ==>
            && QueryOver(v) && v.kittyActive == m.kittyActive
            && (v.modifyOtherKeys <==> m.modifyOtherKeys || !m.kittyActive)
            && v.writes == if m.kittyActive || m.modifyOtherKeys then m.writes else m.writes + [EnableKeys])
  {
    hide Received, Recognised, AfterReply;
    var m := w.mode;
    var held := Received(w.box, m, s, w.handler).held != "";
    AfterReplyActs(m.(held := held, flushTimer := held && !m.negotiating), Completed(w, s).value);
  }

  lemma {:induction false} AfterReplyActs(m: Modes, reply: Reply)
    ensures var v := AfterReply(m, reply);
      && v.pushed == m.pushed
      && (reply.KittyFlags? ==> v.writes == m.writes && v.modifyOtherKeys == m.modifyOtherKeys)
      && (reply.KittyFlags? && reply.flags != 0 ==> v.kittyActive)
      && (reply.KittyFlags? && reply.flags != 0 && !m.kittyActive ==> QueryOver(v))
      && (reply.KittyFlags? && (reply.flags == 0 || m.kittyActive) ==> v == m)
      && (reply.DeviceAttributes? ==>
            && QueryOver(v) && v.kittyActive == m.kittyActive
            && (v.modifyOtherKeys <==> m.modifyOtherKeys || !m.kittyActive)
            && v.writes == if m.kittyActive || m.modifyOtherKeys then m.writes else m.writes + [EnableKeys])
  {
  }

  /** Without an answer the query is closed by its timer, which switches modifyOtherKeys on in the same way. */
  lemma {:induction false} FallbackActs(w: World)
    requires w.mode.fallbackTimer
    ensures var m, v := w.mode, Step(w, FallbackTick(false)).mode;
      && QueryOver(v) && v.kittyActive == m.kittyActive && v.pushed == m.pushed
      && (v.modifyOtherKeys <==> m.modifyOtherKeys || !m.kittyActive)
      && v.writes == if m.kittyActive || m.modifyOtherKeys then m.writes else m.writes + [EnableKeys]
  {
    hide Flush;
  }

  // ----- Once the protocol is active

  /** What must not change. */
  ghost predicate SameKeys(m: Modes, v: Modes) {
    && v.kittyActive && v.modifyOtherKeys == m.modifyOtherKeys
    && Count(v.writes, EnableKeys) == Count(m.writes, EnableKeys)
  }

  lemma {:induction false} ActiveStep(w: World, e: Event)
    requires w.mode.kittyActive && Enables(w, e) && !Closes(e)
    ensures SameKeys(w.mode, Step(w, e).mode)
  {
    hide Count, Received, Flush, Drop, ReceivedMode;
    match e {
      case Starts => CountSnoc(w.mode.writes, Push);
      case Arrives(s) => ActiveReceives(w.box, w.mode, s, Received(w.box, w.mode, s, w.handler).held != "");
      case _ =>
    }
  }

  lemma {:induction false} ActiveReceives(b: Inbox, m: Modes, sequence: string, held: bool)
    requires m.kittyActive
    ensures SameKeys(m, ReceivedMode(b, m, sequence, held))
  {
    hide Count, Recognised;
  }

  /** Once the Kitty protocol is active it stays so, and modifyOtherKeys is not switched on any more, whatever
      arrives and whichever timers fire, until the next drain or stop. */
  lemma {:induction false} ActiveStays(ws: seq<World>, es: seq<Event>)
    requires IsRun(ws, es) && ws[0].mode.kittyActive && forall i :: 0 <= i < |es| ==> !Closes(es[i])
    ensures SameKeys(ws[0].mode, ws[|es|].mode)
    decreases |es|
  {
    hide Step, Count;
    if es != [] {
      var k := |es| - 1;
      assert IsRun(ws[..k + 1], es[..k]);
      ActiveStays(ws[..k + 1], es[..k]);
      assert Enables(ws[k], es[k]) && ws[k + 1] == Step(ws[k], es[k]);
      ActiveStep(ws[k], es[k]);
    }
  }

  /** A drain or a stop switches everything off and expects no reply any more. */
  lemma {:induction false} ClosesAll(w: World, e: Event)
    requires Closes(e)
    ensures var m, v := w.mode, Step(w, e).mode;
      && !v.pushed && !v.kittyActive && !v.modifyOtherKeys && !v.negotiating && !v.late && !v.fallbackTimer
      && !v.flushTimer && !Step(w, e).handler && Step(w, e).box.held == ""
      && v.writes == m.writes + (if m.pushed || m.kittyActive || m.negotiating then [Pop] else [])
                              + (if m.modifyOtherKeys then [DisableKeys] else [])
  {
  }
}
