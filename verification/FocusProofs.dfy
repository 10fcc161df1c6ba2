/** What every run of the focus machine keeps. */
module FocusProofs {
  import opened Basics
  import opened FocusModel

  predicate Distinct(ids: seq<nat>) { forall i, j :: 0 <= i < j < |ids| ==> ids[i] != ids[j] }

  predicate Names(r: Restore, f: Focus) { !r.Inactive? ==> r.overlay in f.stack }

  /** Exactly the focused component is marked, and a pending restore names an overlay of the stack. */
  ghost predicate Kept(f: Focus) {
    && f.flags == Lit(f, f.focused) && Names(f.restore, f)
    && Distinct(f.stack) && forall id :: id in f.stack ==> id < |f.entries|
  }

  /** Only the focus differs. */
  predicate SameOverlays(f: Focus, g: Focus) {
    g.entries == f.entries && g.stack == f.stack && g.focusable == f.focusable
  }

  lemma {:induction false} ChooseNames(f: Focus, env: Env, c: Option<Component>, clear: bool)
    requires Kept(f)
    ensures Names(Choose(f, env, c, clear).restore, f)
  {
    hide IsOverlay, IsAncestor;
  }

  lemma {:induction false} MoveKept(f: Focus, env: Env, ch: Choice)
    requires Kept(f) && Names(ch.restore, f)
    ensures Kept(Move(f, env, ch)) && SameOverlays(f, Move(f, env, ch)) && Move(f, env, ch).focused == ch.next
  {
    hide Find;
  }

  lemma {:induction false} SetFocusKept(f: Focus, env: Env, c: Option<Component>, clear: bool)
    requires Kept(f)
    ensures Kept(SetFocusInternal(f, env, c, clear)) && SameOverlays(f, SetFocusInternal(f, env, c, clear))
  {
    hide Choose, Move, Kept;
    ChooseNames(f, env, c, clear);
    MoveKept(f, env, Choose(f, env, c, clear));
  }

  lemma {:induction false} WithoutDistinct(ids: seq<nat>, id: nat)
    requires Distinct(ids)
    ensures Distinct(Without(ids, id)) && id !in Without(ids, id)
  {
    if ids != [] && ids[0] != id {
      var rest := Without(ids[1..], id);
      WithoutDistinct(ids[1..], id);
      assert ids[0] !in ids[1..];
    }
  }

  lemma {:induction false} RemoveKept(f: Focus, id: nat)
    requires Kept(f)
    ensures Kept(Remove(f, id)) && id !in Remove(f, id).stack
  {
    hide Without, Retargeted;
    WithoutDistinct(f.stack, id);
  }

  lemma {:induction false} EntryKept(f: Focus, id: nat, e: Entry)
    requires Kept(f)
    ensures Kept(WithEntry(f, id, e)) && Kept(Raise(f, id)) && Kept(ClearRestoreFor(f, id))
  {
  }

  lemma {:induction false} ShownKept(f: Focus, c: Component, nonCapturing: bool)
    requires Kept(f)
    ensures Kept(f.(entries := f.entries + [Entry(c, f.focused, false, nonCapturing, f.counter + 1)],
      stack := f.stack + [|f.entries|], counter := f.counter + 1))
  {
    assert forall i :: 0 <= i < |f.stack| ==> f.stack[i] in f.stack;
  }

  lemma {:induction false} ShowKept(f: Focus, env: Env, c: Component, nonCapturing: bool)
    requires Kept(f)
    ensures Kept(Show(f, env, c, nonCapturing))
  {
    hide SetFocusInternal;
    var id := |f.entries|;
    var g := f.(entries := f.entries + [Entry(c, f.focused, false, nonCapturing, f.counter + 1)],
        stack := f.stack + [id], counter := f.counter + 1);
    ShownKept(f, c, nonCapturing);
    SetFocusKept(g, env, Some(c), true);
  }

  lemma {:induction false} HideKept(f: Focus, env: Env, id: nat)
    requires Kept(f)
    ensures Kept(Hide(f, env, id))
  {
    hide SetFocusInternal, Kept, Remove, Fallback;
    RemoveKept(f, id);
    SetFocusKept(Remove(f, id), env, Fallback(Remove(f, id), env, Get(f, id).preFocus), true);
  }

  lemma {:induction false} SetHiddenKept(f: Focus, env: Env, id: nat, hidden: bool)
    requires Kept(f)
    ensures Kept(SetHidden(f, env, id, hidden))
  {
    hide SetFocusInternal, Kept, Fallback, WithEntry, Raise, ClearRestoreFor, Visible;
    var e := Get(f, id);
    var g := WithEntry(f, id, e.(hidden := hidden));
    EntryKept(f, id, e.(hidden := hidden));
    EntryKept(g, id, e);
    var h := ClearRestoreFor(g, id);
    SetFocusKept(h, env, Fallback(h, env, e.preFocus), true);
    SetFocusKept(Raise(g, id), env, Some(e.component), true);
  }

  lemma {:induction false} UnfocusKept(f: Focus, env: Env, id: nat, options: Option<Option<Component>>)
    requires Kept(f)
    ensures Kept(Unfocus(f, env, id, options))
  {
    hide SetFocusInternal, Topmost;
    var g := ClearRestoreFor(f, id);
    EntryKept(f, id, NO_ENTRY);
    var top := Topmost(g, env, g.stack);
    var fallback := if top.Some? && top.value != id then Some(Get(g, top.value).component) else Get(f, id).preFocus;
    SetFocusKept(g, env, fallback, true);
    if options.Some? { SetFocusKept(g, env, options.value, true); }
  }

  lemma {:induction false} InputKept(f: Focus, env: Env)
    requires Kept(f)
    ensures Kept(Input(f, env))
  {
    hide SetFocusInternal, Kept, Find, Topmost, IsOverlay, Input, Visible;
    var o := if f.focused.None? then None else Find(f, env, f.stack, f.focused.value, false);
    if o.Some? { SetFocusKept(f, env, Get(f, o.value).preFocus, false); }
    var top := Topmost(f, env, f.stack);
    if top.Some? { SetFocusKept(f, env, Some(Get(f, top.value).component), true); }
    var g := LeaveInvisible(f, env);
    ResumedKept(g, env);
    InputIs(f, env);
  }

  lemma {:induction false} InputIs(f: Focus, env: Env)
    ensures Input(f, env) == Resumed(LeaveInvisible(f, env), env)
  {
  }

  lemma {:induction false} ResumedKept(f: Focus, env: Env)
    requires Kept(f)
    ensures Kept(Resumed(f, env))
  {
    hide SetFocusInternal, IsOverlay, Visible;
    var r := VisibleRestore(f, env);
    if !r.Inactive? { SetFocusKept(f, env, Some(Get(f, r.overlay).component), true); }
    if r.Blocked? && r.resume.FocusTarget? { SetFocusKept(f.(restore := Inactive), env, r.resume.target, true); }
  }

  /** Every operation, on any handle, even one whose overlay has gone. */
  lemma {:induction false} StepKept(f: Focus, env: Env, e: Event)
    requires Kept(f)
    ensures Kept(Step(f, env, e))
  {
    hide Kept, Show, Hide, SetHidden, Unfocus, SetFocusInternal, Input;
    match e {
      case Shows(c, n) => ShowKept(f, env, c, n);
      case Hides(id) => HideKept(f, env, id);
      case HidesTop => if f.stack != [] { HideKept(f, env, f.stack[|f.stack| - 1]); }
      case SetsHidden(id, hidden) => SetHiddenKept(f, env, id, hidden);
      case FocusesOverlay(id) =>
        EntryKept(f, id, NO_ENTRY);
        SetFocusKept(Raise(f, id), env, Some(Get(f, id).component), true);
      case Unfocuses(id, options) => UnfocusKept(f, env, id, options);
      case SetsFocus(c) => SetFocusKept(f, env, c, true);
      case Inputs => InputKept(f, env);
    }
  }

  // ----- Runs

  ghost predicate IsRun(fs: seq<Focus>, envs: seq<Env>, es: seq<Event>) {
    && |fs| == |es| + 1 == |envs| + 1
    && forall i :: 0 <= i < |es| ==> fs[i + 1] == Step(fs[i], envs[i], es[i])
  }

  /** In every run exactly the focused component is marked and a pending restore names an overlay
      that is still in the stack. */
  lemma {:induction false} RunKept(fs: seq<Focus>, envs: seq<Env>, es: seq<Event>)
    requires IsRun(fs, envs, es) && fs[0] == Initial(fs[0].focusable)
    ensures forall i :: 0 <= i < |fs| ==> Kept(fs[i])
    decreases |es|
  {
    hide Step, Kept;
    if es == [] {
      InitialKept(fs[0].focusable);
    } else {
      var k := |es| - 1;
      assert IsRun(fs[..k + 1], envs[..k], es[..k]);
      RunKept(fs[..k + 1], envs[..k], es[..k]);
      assert fs[..k + 1][k] == fs[k];
      assert fs[k + 1] == Step(fs[k], envs[k], es[k]);
      StepKept(fs[k], envs[k], es[k]);
      forall i | 0 <= i < |fs| ensures Kept(fs[i]) {
        if i <= k { assert fs[i] == fs[..k + 1][i]; }
      }
    }
  }

  lemma {:induction false} InitialKept(focusable: set<Component>)
    ensures Kept(Initial(focusable))
  {
  }

  // ----- Nothing points at an overlay that has gone

  /** `c` is, or once was, the component of an overlay. */
  predicate Owned(f: Focus, c: Component) { exists j :: 0 <= j < |f.entries| && f.entries[j].component == c }

  /** `c` is not the component of an overlay that has left the stack. */
  predicate Alive(f: Focus, c: Option<Component>) {
    forall j :: 0 <= j < |f.entries| && c == Some(f.entries[j].component) ==> j in f.stack
  }

  /** Focus goes back to something older. */
  predicate Older(f: Focus, k: nat)
    requires k < |f.entries|
  {
    forall j :: 0 <= j < |f.entries| && f.entries[k].preFocus == Some(f.entries[j].component) ==> j in f.stack && j < k
  }

  predicate RestoreTidy(f: Focus, r: Restore) {
    r.Blocked? ==> !Owned(f, r.blockedBy) && (r.resume.FocusTarget? ==> Alive(f, r.resume.target))
  }

  predicate OwnComponents(f: Focus) {
    forall i, j :: 0 <= i < j < |f.entries| ==> f.entries[i].component != f.entries[j].component
  }

  ghost predicate TidyOverlays(f: Focus) {
    && Kept(f) && OwnComponents(f) && RestoreTidy(f, f.restore)
    && forall k :: k in f.stack ==> Older(f, k)
  }

  ghost predicate Tidy(f: Focus) { TidyOverlays(f) && Alive(f, f.focused) }

  lemma {:induction false} StackAlive(f: Focus, k: nat)
    requires TidyOverlays(f) && k in f.stack
    ensures Alive(f, Some(Get(f, k).component)) && Alive(f, Get(f, k).preFocus)
  {
    hide Lit, RestoreTidy;
    assert Older(f, k);
  }

  lemma {:induction false} ChooseTidy(f: Focus, env: Env, c: Option<Component>, clear: bool)
    requires TidyOverlays(f) && Alive(f, c)
    ensures var ch := Choose(f, env, c, clear); RestoreTidy(f, ch.restore) && Alive(f, ch.next)
  {
    hide IsAncestor, Lit, Alive, OwnComponents, Older, Owned, Find;
    var r := VisibleRestore(f, env);
    if !r.Inactive? { StackAlive(f, r.overlay); }
    if c.Some? && !IsOverlay(f, env, c.value) { FreeComponent(f, env, c.value); }
  }

  lemma {:induction false} FreeComponent(f: Focus, env: Env, c: Component)
    requires Alive(f, Some(c)) && !IsOverlay(f, env, c)
    ensures !Owned(f, c)
  {
  }

  lemma {:induction false} MoveTidy(f: Focus, env: Env, ch: Choice)
    requires TidyOverlays(f) && Names(ch.restore, f) && RestoreTidy(f, ch.restore) && Alive(f, ch.next)
    ensures Tidy(Move(f, env, ch))
  {
    hide Kept, Older, OwnComponents, Find, Lit;
    var g := Move(f, env, ch);
    MoveKept(f, env, ch);
    KeptOf(f);
    OlderSame(f, g);
    ComponentsSame(f, g);
    OwnedSame(f, g);
  }

  lemma {:induction false} OlderSame(f: Focus, g: Focus)
    requires SameOverlays(f, g) && Kept(f)
    ensures forall k :: k in f.stack ==> (Older(f, k) <==> Older(g, k))
  {
  }

  lemma {:induction false} ComponentsSame(f: Focus, g: Focus)
    requires SameOverlays(f, g)
    ensures OwnComponents(f) <==> OwnComponents(g)
  {
  }

  lemma {:induction false} SetFocusTidy(f: Focus, env: Env, c: Option<Component>, clear: bool)
    requires TidyOverlays(f) && Alive(f, c)
    ensures Tidy(SetFocusInternal(f, env, c, clear))
  {
    hide Choose, Move, Kept, Older, OwnComponents, Alive, RestoreTidy;
    ChooseTidy(f, env, c, clear);
    ChooseNames(f, env, c, clear);
    MoveTidy(f, env, Choose(f, env, c, clear));
  }

  /** Hiding, raising or forgetting a restore changes nothing that matters here. */
  lemma {:induction false} SameTidy(f: Focus, g: Focus)
    requires Tidy(f) && Kept(g) && g.stack == f.stack && g.focused == f.focused && |g.entries| == |f.entries|
    requires g.restore == f.restore || g.restore == Inactive
    requires forall k :: 0 <= k < |f.entries| ==>
      g.entries[k].component == f.entries[k].component && g.entries[k].preFocus == f.entries[k].preFocus
    ensures Tidy(g)
  {
    hide Lit;
    forall k | k in g.stack ensures Older(g, k) { assert Older(f, k); }
  }

  /** Another overlay, interrupted, is to give the focus to this one when it resumes. */
  predicate PendingTarget(f: Focus, id: nat) {
    f.restore.Blocked? && f.restore.overlay != id && f.restore.resume == FocusTarget(Some(Get(f, id).component))
  }

  lemma {:induction false} RemoveTidy(f: Focus, id: nat)
    requires Tidy(f) && id in f.stack && !PendingTarget(f, id)
    ensures var g := Remove(f, id);
      && TidyOverlays(g) && Alive(g, Get(f, id).preFocus)
      && (f.focused != Some(Get(f, id).component) ==> Alive(g, f.focused))
  {
    hide Lit, Without, Retargeted;
    var g := Remove(f, id);
    RemoveKept(f, id);
    WithoutDistinct(f.stack, id);
    assert Older(f, id);
    assert forall k :: 0 <= k < |f.entries| ==> g.entries[k].component == f.entries[k].component;
    forall k | k in g.stack ensures Older(g, k) {
      assert Older(f, k);
    }
  }

  lemma {:induction false} FallbackAlive(f: Focus, env: Env, preFocus: Option<Component>)
    requires TidyOverlays(f) && Alive(f, preFocus)
    ensures Alive(f, Fallback(f, env, preFocus))
  {
    hide TidyOverlays, Topmost, Alive;
    var top := Topmost(f, env, f.stack);
    if top.Some? { StackAlive(f, top.value); }
  }

  lemma {:induction false} HideTidy(f: Focus, env: Env, id: nat)
    requires Tidy(f) && (id in f.stack ==> !PendingTarget(f, id))
    ensures Tidy(Hide(f, env, id))
  {
    hide TidyOverlays, SetFocusInternal, Remove, Fallback, Alive;
    if id in f.stack {
      var g := Remove(f, id);
      RemoveTidy(f, id);
      RemoveFocus(f, id);
      FallbackAlive(g, env, Get(f, id).preFocus);
      SetFocusTidy(g, env, Fallback(g, env, Get(f, id).preFocus), true);
    }
  }

  lemma {:induction false} RemoveFocus(f: Focus, id: nat)
    ensures Remove(f, id).focused == f.focused
  {
  }

  /** A component the machine has not met. */
  predicate Fresh(f: Focus, c: Component) {
    && !Owned(f, c) && f.focused != Some(c)
    && (f.restore.Blocked? ==> f.restore.blockedBy != c && f.restore.resume != FocusTarget(Some(c)))
    && forall k :: 0 <= k < |f.entries| ==> f.entries[k].preFocus != Some(c)
  }

  lemma {:induction false} ShownTidy(f: Focus, c: Component, nonCapturing: bool)
    requires Tidy(f) && Fresh(f, c)
    ensures var g := f.(entries := f.entries + [Entry(c, f.focused, false, nonCapturing, f.counter + 1)],
                        stack := f.stack + [|f.entries|], counter := f.counter + 1);
      Tidy(g) && Alive(g, Some(c))
  {
    hide Lit, OwnComponents, RestoreTidy;
    var g := f.(entries := f.entries + [Entry(c, f.focused, false, nonCapturing, f.counter + 1)],
        stack := f.stack + [|f.entries|], counter := f.counter + 1);
    assert forall i :: 0 <= i < |f.stack| ==> f.stack[i] in f.stack;
    assert g.flags == Lit(g, g.focused) by { LitSame(f, g); }
    ShownComponents(f, g, c);
    forall k | k in g.stack ensures Older(g, k) {
      if k < |f.entries| { assert k in f.stack && Older(f, k); }
    }
  }

  lemma {:induction false} LitSame(f: Focus, g: Focus)
    requires f.focusable == g.focusable && f.focused == g.focused
    ensures Lit(f, f.focused) == Lit(g, g.focused)
  {
  }

  lemma {:induction false} ShownComponents(f: Focus, g: Focus, c: Component)
    requires OwnComponents(f) && RestoreTidy(f, f.restore) && Fresh(f, c) && g.restore == f.restore
    requires forall k :: k in f.stack ==> k in g.stack
    requires |g.entries| == |f.entries| + 1 && g.entries[..|f.entries|] == f.entries
      && g.entries[|f.entries|].component == c
    ensures OwnComponents(g) && RestoreTidy(g, g.restore)
  {
    assert forall k :: 0 <= k < |f.entries| ==> g.entries[k] == g.entries[..|f.entries|][k];
  }

  lemma {:induction false} ShowTidy(f: Focus, env: Env, c: Component, nonCapturing: bool)
    requires Tidy(f) && Fresh(f, c)
    ensures Tidy(Show(f, env, c, nonCapturing))
  {
    hide TidyOverlays, SetFocusInternal, Alive, Fresh, Visible;
    ShownTidy(f, c, nonCapturing);
    var g := f.(entries := f.entries + [Entry(c, f.focused, false, nonCapturing, f.counter + 1)],
        stack := f.stack + [|f.entries|], counter := f.counter + 1);
    SetFocusTidy(g, env, Some(c), true);
  }

  lemma {:induction false} SetHiddenTidy(f: Focus, env: Env, id: nat, hidden: bool)
    requires Tidy(f) && id in f.stack
    ensures Tidy(SetHidden(f, env, id, hidden))
  {
    hide TidyOverlays, SetFocusInternal, Alive, Fallback, Visible;
    KeptOf(f);
    var e := Get(f, id);
    var g := WithEntry(f, id, e.(hidden := hidden));
    EntryKept(f, id, e.(hidden := hidden));
    EntryKept(g, id, e);
    var h, up := ClearRestoreFor(g, id), Raise(g, id);
    SameTidy(f, g);
    SameTidy(f, h);
    SameTidy(f, up);
    StackAlive(h, id);
    StackAlive(up, id);
    FallbackAlive(h, env, e.preFocus);
    SetFocusTidy(h, env, Fallback(h, env, e.preFocus), true);
    SetFocusTidy(up, env, Some(e.component), true);
  }

  lemma {:induction false} KeptOf(f: Focus)
    requires TidyOverlays(f)
    ensures Kept(f)
  {
  }

  lemma {:induction false} FocusOverlayTidy(f: Focus, env: Env, id: nat)
    requires Tidy(f)
    ensures Tidy(FocusOverlay(f, env, id))
  {
    hide TidyOverlays, SetFocusInternal, Alive, Visible;
    KeptOf(f);
    if id in f.stack {
      EntryKept(f, id, NO_ENTRY);
      SameTidy(f, Raise(f, id));
      StackAlive(Raise(f, id), id);
      SetFocusTidy(Raise(f, id), env, Some(Get(f, id).component), true);
    }
  }

  lemma {:induction false} UnfocusTidy(f: Focus, env: Env, id: nat, options: Option<Option<Component>>)
    requires Tidy(f) && (options.Some? ==> Alive(f, options.value))
    ensures Tidy(Unfocus(f, env, id, options))
  {
    hide TidyOverlays, SetFocusInternal, Topmost, Owned;
    KeptOf(f);
    if id in f.stack {
      var e, g := Get(f, id), ClearRestoreFor(f, id);
      EntryKept(f, id, NO_ENTRY);
      SameTidy(f, g);
      SameTidy(f, f.(restore := Inactive));
      if f.restore.Blocked? && options.Some? { BlockedTidy(f, id, options.value); }
      var top := Topmost(g, env, g.stack);
      StackAlive(g, id);
      if top.Some? { StackAlive(g, top.value); }
      SetFocusTidy(g, env, if top.Some? && top.value != id then Some(Get(g, top.value).component)
      else e.preFocus, true);
      if options.Some? { SetFocusTidy(g, env, options.value, true); }
    }
  }

  lemma {:induction false} OwnedSame(f: Focus, g: Focus)
    requires f.entries == g.entries
    ensures forall c :: Owned(f, c) <==> Owned(g, c)
  {
  }

  lemma {:induction false} BlockedTidy(f: Focus, id: nat, target: Option<Component>)
    requires Tidy(f) && f.restore.Blocked? && id in f.stack && Alive(f, target)
    ensures Tidy(f.(restore := Blocked(id, f.restore.blockedBy, FocusTarget(target))))
  {
    hide Older, Lit, OwnComponents;
    var g := f.(restore := Blocked(id, f.restore.blockedBy, FocusTarget(target)));
    LitSame(f, g);
    OwnedSame(f, g);
    OlderSame(f, g);
    ComponentsSame(f, g);
  }

  lemma {:induction false} InputTidy(f: Focus, env: Env)
    requires Tidy(f)
    ensures Tidy(Input(f, env))
  {
    hide TidyOverlays, SetFocusInternal, Find, Topmost, Visible, Alive, Resumed;
    var o := if f.focused.None? then None else Find(f, env, f.stack, f.focused.value, false);
    if o.Some? { StackAlive(f, o.value); SetFocusTidy(f, env, Get(f, o.value).preFocus, false); }
    var top := Topmost(f, env, f.stack);
    if top.Some? { StackAlive(f, top.value); SetFocusTidy(f, env, Some(Get(f, top.value).component), true); }
    ResumedTidy(LeaveInvisible(f, env), env);
  }

  lemma {:induction false} ResumedTidy(f: Focus, env: Env)
    requires Tidy(f)
    ensures Tidy(Resumed(f, env))
  {
    hide TidyOverlays, SetFocusInternal, IsOverlay, Visible, Alive;
    KeptOf(f);
    var r := VisibleRestore(f, env);
    if !r.Inactive? { StackAlive(f, r.overlay); SetFocusTidy(f, env, Some(Get(f, r.overlay).component), true); }
    if r.Blocked? && r.resume.FocusTarget? {
      var g := f.(restore := Inactive);
      InactiveKept(f);
      SameTidy(f, g);
      TargetAlive(f);
      SetFocusTidy(g, env, r.resume.target, true);
    }
  }

  lemma {:induction false} InactiveKept(f: Focus)
    requires Kept(f)
    ensures Kept(f.(restore := Inactive))
  {
  }

  lemma {:induction false} TargetAlive(f: Focus)
    requires TidyOverlays(f) && f.restore.Blocked? && f.restore.resume.FocusTarget?
    ensures Alive(f.(restore := Inactive), f.restore.resume.target)
  {
  }

  /** Every overlay gets a component of its own, nobody names the component of an overlay that has gone
      or shows and hides it through its handle, and no overlay is removed while another one is to
      resume to it, unless the removal itself ends the interruption. */
  predicate Polite(f: Focus, env: Env, e: Event) {
    match e
    case Shows(c, _) => Fresh(f, c)
    case SetsHidden(id, _) => id in f.stack
    case Hides(id) => Removable(f, env, id)
    case HidesTop => f.stack != [] ==> Removable(f, env, f.stack[|f.stack| - 1])
    case Unfocuses(_, options) => options.Some? ==> Alive(f, options.value)
    case SetsFocus(c) => Alive(f, c)
    case _ => true
  }

  predicate Removable(f: Focus, env: Env, id: nat) {
    id in f.stack ==> !PendingTarget(f, id) || HandsOver(f, env, id)
  }

  lemma {:induction false} RemovableTidy(f: Focus, env: Env, id: nat)
    requires Tidy(f) && Removable(f, env, id)
    ensures Tidy(Hide(f, env, id))
  {
    hide Tidy, Hide, HandsOver, PendingTarget;
    if id in f.stack { HideExact(f, env, id); } else { HideTidy(f, env, id); }
  }

  lemma {:induction false} StepTidy(f: Focus, env: Env, e: Event)
    requires Tidy(f) && Polite(f, env, e)
    ensures Tidy(Step(f, env, e))
  {
    hide Tidy, Show, Hide, SetHidden, Unfocus, FocusOverlay, SetFocusInternal, Input, Fresh, Owned, Alive, Removable,
        PendingTarget;
    match e {
      case Shows(c, n) => ShowTidy(f, env, c, n);
      case Hides(id) => RemovableTidy(f, env, id);
      case HidesTop => if f.stack != [] { RemovableTidy(f, env, f.stack[|f.stack| - 1]); }
      case SetsHidden(id, hidden) => SetHiddenTidy(f, env, id, hidden);
      case FocusesOverlay(id) => FocusOverlayTidy(f, env, id);
      case Unfocuses(id, options) => UnfocusTidy(f, env, id, options);
      case SetsFocus(c) => TidyIs(f); SetFocusTidy(f, env, c, true);
      case Inputs => InputTidy(f, env);
    }
  }

  lemma {:induction false} TidyIs(f: Focus)
    requires Tidy(f)
    ensures TidyOverlays(f) && Alive(f, f.focused)
  {
  }

  /** In every polite run neither the focus nor the focus to go back to is ever the component of an
      overlay that has left the stack. */
  lemma {:induction false} RunTidy(fs: seq<Focus>, envs: seq<Env>, es: seq<Event>)
    requires IsRun(fs, envs, es) && fs[0] == Initial(fs[0].focusable)
    requires forall i :: 0 <= i < |es| ==> Polite(fs[i], envs[i], es[i])
    ensures var f := fs[|es|];
      && Tidy(f) && Alive(f, f.focused)
      && forall k :: k in f.stack ==> k < |f.entries| && Alive(f, f.entries[k].preFocus)
    decreases |es|
  {
    hide Step, Tidy, Polite, Alive;
    if es == [] {
      InitialTidy(fs[0].focusable);
    } else {
      var k := |es| - 1;
      assert IsRun(fs[..k + 1], envs[..k], es[..k]);
      RunTidy(fs[..k + 1], envs[..k], es[..k]);
      assert fs[k + 1] == Step(fs[k], envs[k], es[k]);
      StepTidy(fs[k], envs[k], es[k]);
    }
    TidyMeans(fs[|es|]);
  }

  lemma {:induction false} InitialTidy(focusable: set<Component>)
    ensures Tidy(Initial(focusable))
  {
  }

  lemma {:induction false} TidyMeans(f: Focus)
    requires Tidy(f)
    ensures Alive(f, f.focused) && forall k :: k in f.stack ==> k < |f.entries| && Alive(f, f.entries[k].preFocus)
  {
    hide Alive;
    KeptOf(f);
    forall k | k in f.stack ensures Alive(f, f.entries[k].preFocus) { StackAlive(f, k); }
  }

  /** What a removed overlay hands the focus to settles the matter: nobody, or a visible overlay. */
  predicate HandsOver(f: Focus, env: Env, id: nat) {
    var g := Remove(f, id);
    var c := Fallback(g, env, Get(f, id).preFocus);
    f.focused == Some(Get(f, id).component) && (c.None? || FindVisible(g, env, c).Some?)
  }

  /** Removing an overlay leaves nothing dangling if and only if no other overlay is to resume to it, or
      it had the focus and hands it to nobody or to a visible overlay, which ends the interruption. */
  lemma {:induction false} HideExact(f: Focus, env: Env, id: nat)
    requires Tidy(f) && id in f.stack
    ensures Tidy(Hide(f, env, id)) <==> !PendingTarget(f, id) || HandsOver(f, env, id)
  {
    hide Tidy, Hide, HandsOver, PendingTarget;
    if !PendingTarget(f, id) {
      HideTidy(f, env, id);
    } else if f.focused == Some(Get(f, id).component) {
      HideFocused(f, env, id);
    } else {
      HideUnfocused(f, env, id);
    }
  }

  lemma {:induction false} HideUnfocused(f: Focus, env: Env, id: nat)
    requires Tidy(f) && id in f.stack && f.focused != Some(Get(f, id).component) && PendingTarget(f, id)
    ensures !Tidy(Hide(f, env, id)) && !HandsOver(f, env, id)
  {
    hide Retargeted, Without, Lit, Older, OwnComponents, Fallback, Find;
    KeptOf(f);
    var g := Hide(f, env, id);
    assert g == Remove(f, id);
    StaleStays(f, g, id);
  }

  /** A restore that still resumes to the removed overlay dangles. */
  lemma {:induction false} StaleStays(f: Focus, g: Focus, id: nat)
    requires Kept(f) && id in f.stack && PendingTarget(f, id) && g.restore == f.restore
    requires g.entries == Remove(f, id).entries && g.stack == Remove(f, id).stack
    ensures !Tidy(g)
  {
    hide Retargeted, Without, Lit, Older, OwnComponents;
    WithoutDistinct(f.stack, id);
    assert g.entries[id].component == f.entries[id].component && id !in g.stack;
    assert !Alive(g, g.restore.resume.target);
  }

  lemma {:induction false} HideFocused(f: Focus, env: Env, id: nat)
    requires Tidy(f) && id in f.stack && f.focused == Some(Get(f, id).component) && PendingTarget(f, id)
    ensures Tidy(Hide(f, env, id)) <==> HandsOver(f, env, id)
  {
    hide Remove, Tidy, Fallback, FindVisible, Move, Choose, TidyOverlays;
    var g := Remove(f, id);
    var c := Fallback(g, env, Get(f, id).preFocus);
    var f0 := f.(restore := Inactive);
    ForgetTidy(f);
    RemoveTidy(f0, id);
    RemoveForgets(f, id);
    var g0 := g.(restore := Inactive);
    assert Remove(f0, id) == g0;
    SameFallback(g, g0, env, Get(f, id).preFocus);
    FallbackAlive(g0, env, Get(f, id).preFocus);
    NoLongerBlocking(f, env, id, c);
    MovedOn(g, env, c);
    if c.None? || FindVisible(g, env, c).Some? {
      MoveTidy(g0, env, Choice(Inactive, c));
    } else {
      KeptOfTidy(f);
      StaleStays(f, Move(g, env, Choice(g.restore, c)), id);
    }
  }

  lemma {:induction false} KeptOfTidy(f: Focus)
    requires Tidy(f)
    ensures Kept(f)
  {
  }

  lemma {:induction false} ForgetTidy(f: Focus)
    requires Tidy(f)
    ensures Tidy(f.(restore := Inactive))
  {
    hide TidyOverlays, Alive;
    KeptOf(f);
    InactiveKept(f);
    SameTidy(f, f.(restore := Inactive));
  }

  lemma {:induction false} RemoveForgets(f: Focus, id: nat)
    ensures Remove(f.(restore := Inactive), id) == Remove(f, id).(restore := Inactive)
    ensures PendingTarget(f, id) ==> Remove(f, id).restore == f.restore
    ensures !PendingTarget(f.(restore := Inactive), id) && Remove(f, id).focused == f.focused
  {
    var a, b := Retargeted(f.(restore := Inactive), id), Retargeted(f, id);
    assert a == b;
  }

  lemma {:induction false} SameFallback(g: Focus, g0: Focus, env: Env, preFocus: Option<Component>)
    requires g0 == g.(restore := Inactive)
    ensures Fallback(g0, env, preFocus) == Fallback(g, env, preFocus)
  {
    SameTopmost(g, g0, env, g.stack);
  }

  lemma {:induction false} SameTopmost(g: Focus, g0: Focus, env: Env, ids: seq<nat>)
    requires g0.entries == g.entries
    ensures Topmost(g0, env, ids) == Topmost(g, env, ids)
    decreases |ids|
  {
    if ids != [] { SameTopmost(g, g0, env, ids[..|ids| - 1]); }
  }

  lemma {:induction false} SameFind(g: Focus, g0: Focus, env: Env, ids: seq<nat>, c: Component, visible: bool)
    requires g0.entries == g.entries
    ensures Find(g0, env, ids, c, visible) == Find(g, env, ids, c, visible)
    decreases |ids|
  {
    if ids != [] { SameFind(g, g0, env, ids[1..], c, visible); }
  }

  /** With the focus on an overlay that has gone nothing is interrupted, so the choice is as asked. */
  lemma {:induction false} NoLongerBlocking(f: Focus, env: Env, id: nat, c: Option<Component>)
    requires Tidy(f) && id in f.stack && f.focused == Some(Get(f, id).component) && PendingTarget(f, id)
    ensures var g := Remove(f, id); Choose(g, env, c, true) == Choice(if c.None? then Inactive else g.restore, c)
  {
    hide Retargeted, Without, Lit, Older, Find, IsAncestor;
    KeptOf(f);
    WithoutDistinct(f.stack, id);
    var g := Remove(f, id);
    assert Owned(f, Get(f, id).component);
    assert FindVisible(g, env, g.focused).None? by { GoneNotFound(f, env, id); }
  }

  lemma {:induction false} GoneNotFound(f: Focus, env: Env, id: nat)
    requires Tidy(f) && id in f.stack
    ensures FindVisible(Remove(f, id), env, Some(Get(f, id).component)).None?
  {
    hide Retargeted, Without, Lit, Older;
    KeptOf(f);
    WithoutDistinct(f.stack, id);
    var g := Remove(f, id);
    assert forall k :: 0 <= k < |f.entries| ==> g.entries[k].component == f.entries[k].component;
    assert forall k :: k in g.stack ==> k in f.stack && k != id;
  }

  /** Moving the focus to nobody or to a visible overlay does not depend on what was pending. */
  lemma {:induction false} MovedOn(g: Focus, env: Env, c: Option<Component>)
    ensures var g0 := g.(restore := Inactive);
      && (c.None? ==> Move(g, env, Choice(Inactive, c)) == Move(g0, env, Choice(Inactive, c)))
      && (FindVisible(g, env, c).Some? ==> Move(g, env, Choice(g.restore, c)) == Move(g0, env, Choice(Inactive, c)))
    ensures c.Some? && FindVisible(g, env, c).None? ==>
      var m := Move(g, env, Choice(g.restore, c));
      m.restore == g.restore && m.entries == g.entries && m.stack == g.stack
  {
    hide Find;
    if c.Some? {
      var h := g.(focused := c, flags := g.flags - Lit(g, g.focused) + Lit(g, c));
      SameFind(g, h, env, g.stack, c.value, true);
      SameFind(g, h.(restore := Inactive), env, g.stack, c.value, true);
    }
  }

  /** That condition is needed: an overlay removed while another is to resume to it is focused after it
      has gone, and the next overlay will give the focus back to it. */
  lemma {:induction false} StaleTarget(f: Focus, env: Env, a: nat, e: nat, x: Component, d: Component)
    requires Tidy(f) && f.restore.Blocked? && f.restore.overlay == a && f.focused == Some(f.restore.blockedBy)
      && Visible(f, env, a)
    requires e in f.stack && e != a && !Owned(f, x)
    ensures var c := Get(f, e).component;
      var f1 := Unfocus(f, env, a, Some(Some(c)));
      var f2 := Hide(f1, env, e);
      var f3 := SetFocus(f2, env, Some(x));
      var f4 := Show(f3, env, d, true);
      f3.focused == Some(c) && Get(f4, |f3.entries|).preFocus == Some(c) && !Alive(f4, Some(c))
  {
    hide Without, Retargeted, Lit, Reaches, Find, Topmost;
    KeptOf(f);
    var c := Get(f, e).component;
    var b := f.restore.blockedBy;
    var f1 := Unfocus(f, env, a, Some(Some(c)));
    assert f1 == f.(restore := Blocked(a, b, FocusTarget(Some(c))));
    assert Owned(f, c) && b != c;
    var f2 := Hide(f1, env, e);
    assert f2 == Remove(f1, e);
    WithoutDistinct(f.stack, e);
    assert VisibleRestore(f2, env) == Blocked(a, b, FocusTarget(Some(c)));
    assert !IsOverlay(f2, env, x) by { NotInStack(f, f2, env, x); }
    var f3 := SetFocus(f2, env, Some(x));
    assert f3.focused == Some(c) && f3.stack == f2.stack;
    var f4 := Show(f3, env, d, true);
    assert f4.entries[e].component == c && e !in f4.stack;
  }

  lemma {:induction false} NotInStack(f: Focus, g: Focus, env: Env, x: Component)
    requires !Owned(f, x) && |g.entries| == |f.entries| && (forall id :: id in g.stack ==> id < |g.entries|)
    requires forall k :: 0 <= k < |f.entries| ==> g.entries[k].component == f.entries[k].component
    ensures !IsOverlay(g, env, x)
  {
  }

  /** Such a state is reached: an overlay, another component focused, a second overlay that does not
      take the focus. */
  lemma {:induction false} StaleReachable()
    ensures var env := Env({0}, {});
      var f := Step(Step(Step(Initial({}), env, Shows(10, false)), env, SetsFocus(Some(1))), env, Shows(11, true));
      && Tidy(f) && f.restore == Blocked(0, 1, RestoreOverlay) && f.focused == Some(1) && Visible(f, env, 0)
      && 1 in f.stack && !Owned(f, 2)
  {
    var env := Env({0}, {});
    var f0 := Initial({});
    InitialTidy({});
    var f1 := Step(f0, env, Shows(10, false));
    StepTidy(f0, env, Shows(10, false));
    FirstShown(env);
    var f2 := Step(f1, env, SetsFocus(Some(1)));
    StepTidy(f1, env, SetsFocus(Some(1)));
    ThenBlocked(env);
    StepTidy(f2, env, Shows(11, true));
  }

  const FIRST := Entry(10, None, false, false, 1)

  lemma {:induction false} FirstShown(env: Env)
    requires env == Env({0}, {})
    ensures Step(Initial({}), env, Shows(10, false)) == Focus([FIRST], [0], Some(10), Eligible(0), 1, {}, {})
  {
    var g := Focus([FIRST], [0], None, Inactive, 1, {}, {});
    assert [] + [FIRST] == [FIRST] && [] + [0] == [0];
    assert Find(g, env, [0], 10, false) == Some(0);
    var h := g.(focused := Some(10));
    assert Find(h, env, [0], 10, true) == Some(0);
  }

  lemma {:induction false} ThenBlocked(env: Env)
    requires env == Env({0}, {})
    ensures Step(Focus([FIRST], [0], Some(10), Eligible(0), 1, {}, {}), env, SetsFocus(Some(1)))
         == Focus([FIRST], [0], Some(1), Blocked(0, 1, RestoreOverlay), 1, {}, {})
  {
    var g := Focus([FIRST], [0], Some(10), Eligible(0), 1, {}, {});
    assert [0][1..] == [];
    assert Find(g, env, [0], 10, true) == Some(0) && Find(g, env, [0], 1, false) == None;
    assert !IsAncestor(g, env, 0, 1);
    var h := Focus([FIRST], [0], Some(1), Blocked(0, 1, RestoreOverlay), 1, {}, {});
    assert Find(h, env, [0], 1, true) == None;
  }
}
