/** Where the focus is after each operation, said of the overlays on screen. */
module FocusWhere {
  import opened Basics
  import opened FocusModel
  import opened FocusProofs

  // ----- The order in which overlays got the focus

  /** No two overlays ever got the same place in the focus order. */
  predicate Ordered(f: Focus) {
    && (forall i :: 0 <= i < |f.entries| ==> f.entries[i].focusOrder <= f.counter)
    && (forall i, j :: 0 <= i < j < |f.entries| ==> f.entries[i].focusOrder != f.entries[j].focusOrder)
  }

  /** An overlay that may have the keyboard: on the stack, shown, and one that captures input. */
  predicate Candidate(f: Focus, env: Env, id: nat) {
    id in f.stack && !Get(f, id).nonCapturing && !Get(f, id).hidden && id in env.visible
  }

  /** Of the candidates for which `among` holds, the one that got its place last. */
  ghost predicate Front(f: Focus, env: Env, among: set<nat>, id: nat) {
    && id in among && Candidate(f, env, id)
    && forall j :: j in among && Candidate(f, env, j) ==> Get(f, j).focusOrder <= Get(f, id).focusOrder
  }

  function Stack(f: Focus): set<nat> { set id | id in f.stack }

  lemma {:induction false} FrontUnique(f: Focus, env: Env, among: set<nat>, i: nat, j: nat)
    requires Kept(f) && Ordered(f) && Front(f, env, among, i) && Front(f, env, among, j)
    ensures i == j
  {
    hide Lit;
  }

  lemma {:induction false} TopmostFront(f: Focus, env: Env, ids: seq<nat>)
    requires forall id :: id in ids ==> id in f.stack
    ensures var top := Topmost(f, env, ids); var among := set id | id in ids;
      if top.Some? then Front(f, env, among, top.value) else forall j :: j in among ==> !Candidate(f, env, j)
  {
  }

  lemma {:induction false} SetFocusOrders(f: Focus, env: Env, c: Option<Component>, clear: bool)
    requires Ordered(f)
    ensures Ordered(SetFocusInternal(f, env, c, clear))
  {
    hide Choose, Find, Lit;
  }

  lemma {:induction false} EntryOrders(f: Focus, id: nat, hidden: bool)
    requires Ordered(f)
    ensures Ordered(WithEntry(f, id, Get(f, id).(hidden := hidden))) && Ordered(Raise(f, id))
      && Ordered(ClearRestoreFor(f, id))
  {
  }

  lemma {:induction false} RemoveOrders(f: Focus, id: nat)
    requires Ordered(f)
    ensures Ordered(Remove(f, id))
  {
    hide Without;
    var g := Remove(f, id);
    assert forall k :: 0 <= k < |f.entries| ==> g.entries[k].focusOrder == f.entries[k].focusOrder;
  }

  /** The order stays one, whatever is called. */
  lemma {:induction false} StepOrdered(f: Focus, env: Env, e: Event)
    requires Ordered(f)
    ensures Ordered(Step(f, env, e))
  {
    hide SetFocusInternal, Remove, Fallback, Topmost, WithEntry, Raise, ClearRestoreFor, Find, Visible, VisibleRestore,
      Ordered;
    match e {
      case Shows(c, n) => ShowOrdered(f, env, c, n);
      case Hides(id) => HideOrdered(f, env, id);
      case HidesTop => if f.stack != [] { HideOrdered(f, env, f.stack[|f.stack| - 1]); }
      case SetsHidden(id, hidden) => SetHiddenOrdered(f, env, id, hidden);
      case FocusesOverlay(id) =>
        EntryOrders(f, id, false);
        SetFocusOrders(Raise(f, id), env, Some(Get(f, id).component), true);
      case Unfocuses(id, options) => UnfocusOrdered(f, env, id, options);
      case SetsFocus(c) => SetFocusOrders(f, env, c, true);
      case Inputs => InputOrdered(f, env);
    }
  }

  lemma {:induction false} ShowOrdered(f: Focus, env: Env, c: Component, nonCapturing: bool)
    requires Ordered(f)
    ensures Ordered(Show(f, env, c, nonCapturing))
  {
    hide SetFocusInternal;
    var g := f.(entries := f.entries + [Entry(c, f.focused, false, nonCapturing, f.counter + 1)],
        stack := f.stack + [|f.entries|], counter := f.counter + 1);
    SetFocusOrders(g, env, Some(c), true);
  }

  lemma {:induction false} HideOrdered(f: Focus, env: Env, id: nat)
    requires Ordered(f)
    ensures Ordered(Hide(f, env, id))
  {
    hide SetFocusInternal, Remove, Fallback, Ordered;
    RemoveOrders(f, id);
    SetFocusOrders(Remove(f, id), env, Fallback(Remove(f, id), env, Get(f, id).preFocus), true);
  }

  lemma {:induction false} SetHiddenOrdered(f: Focus, env: Env, id: nat, hidden: bool)
    requires Ordered(f)
    ensures Ordered(SetHidden(f, env, id, hidden))
  {
    hide SetFocusInternal, Fallback, WithEntry, Raise, ClearRestoreFor, Visible, Ordered;
    var e := Get(f, id);
    var g := WithEntry(f, id, e.(hidden := hidden));
    EntryOrders(f, id, hidden);
    EntryOrders(g, id, hidden);
    var h := ClearRestoreFor(g, id);
    SetFocusOrders(h, env, Fallback(h, env, e.preFocus), true);
    SetFocusOrders(Raise(g, id), env, Some(e.component), true);
  }

  lemma {:induction false} UnfocusOrdered(f: Focus, env: Env, id: nat, options: Option<Option<Component>>)
    requires Ordered(f)
    ensures Ordered(Unfocus(f, env, id, options))
  {
    hide SetFocusInternal, Topmost, Get;
    var g := ClearRestoreFor(f, id);
    EntryOrders(f, id, false);
    var top := Topmost(g, env, g.stack);
    SetFocusOrders(g, env, if top.Some? && top.value != id then Some(Get(g, top.value).component)
      else Get(f, id).preFocus, true);
    if options.Some? { SetFocusOrders(g, env, options.value, true); }
  }

  lemma {:induction false} InputOrdered(f: Focus, env: Env)
    requires Ordered(f)
    ensures Ordered(Input(f, env))
  {
    hide SetFocusInternal, Find, Topmost, Visible, Ordered, Resumed;
    var o := if f.focused.None? then None else Find(f, env, f.stack, f.focused.value, false);
    if o.Some? { SetFocusOrders(f, env, Get(f, o.value).preFocus, false); }
    var top := Topmost(f, env, f.stack);
    if top.Some? { SetFocusOrders(f, env, Some(Get(f, top.value).component), true); }
    ResumedOrdered(LeaveInvisible(f, env), env);
  }

  lemma {:induction false} ResumedOrdered(f: Focus, env: Env)
    requires Ordered(f)
    ensures Ordered(Resumed(f, env))
  {
    hide SetFocusInternal, IsOverlay, Visible;
    var r := VisibleRestore(f, env);
    if !r.Inactive? { SetFocusOrders(f, env, Some(Get(f, r.overlay).component), true); }
    if r.Blocked? && r.resume.FocusTarget? {
      SetFocusOrders(f.(restore := Inactive), env, r.resume.target, true);
    }
  }

  /** So it is at every moment of every run. */
  lemma {:induction false} RunOrdered(fs: seq<Focus>, envs: seq<Env>, es: seq<Event>)
    requires IsRun(fs, envs, es) && fs[0] == Initial(fs[0].focusable)
    ensures Ordered(fs[|es|])
    decreases |es|
  {
    hide Step, Ordered;
    if es == [] {
      InitialOrdered(fs[0].focusable);
    } else {
      var k := |es| - 1;
      assert IsRun(fs[..k + 1], envs[..k], es[..k]);
      RunOrdered(fs[..k + 1], envs[..k], es[..k]);
      assert fs[k + 1] == Step(fs[k], envs[k], es[k]);
      StepOrdered(fs[k], envs[k], es[k]);
    }
  }

  lemma {:induction false} InitialOrdered(focusable: set<Component>)
    ensures Ordered(Initial(focusable))
  {
  }

  // ----- Following earlier focus

  /** `next` is what the overlay with component `c` would give the focus back to. */
  predicate LeadsBack(f: Focus, env: Env, c: Component, next: Component) {
    var o := Find(f, env, f.stack, c, false);
    o.Some? && Get(f, o.value).preFocus == Some(next)
  }

  /** A path of components, none twice, each the earlier focus of the one before. */
  ghost predicate BackPath(f: Focus, env: Env, path: seq<Component>) {
    && (forall i, j :: 0 <= i < j < |path| ==> path[i] != path[j])
    && forall i :: 0 <= i < |path| - 1 ==> LeadsBack(f, env, path[i], path[i + 1])
  }

  lemma {:induction false} ReachesAlong(f: Focus, env: Env, path: seq<Component>, visited: set<Component>)
    requires path != [] && BackPath(f, env, path) && forall i :: 0 <= i < |path| ==> path[i] !in visited
    ensures Reaches(f, env, Some(path[0]), path[|path| - 1], visited)
    decreases |path|
  {
    if |path| > 1 {
      assert LeadsBack(f, env, path[0], path[1]);
      var rest := path[1..];
      forall i | 0 <= i < |rest| - 1 ensures LeadsBack(f, env, rest[i], rest[i + 1]) {
        assert LeadsBack(f, env, path[i + 1], path[i + 2]);
      }
      ReachesAlong(f, env, rest, visited + {path[0]});
    }
  }

  lemma {:induction false} PathOf(f: Focus, env: Env, current: Option<Component>, c: Component,
      visited: set<Component>) returns (path: seq<Component>)
    requires Reaches(f, env, current, c, visited)
    ensures path != [] && current == Some(path[0]) && path[|path| - 1] == c && BackPath(f, env, path)
    ensures forall i :: 0 <= i < |path| ==> path[i] !in visited
    decreases |StackComponents(f) - visited|
  {
    if current.value == c {
      path := [c];
    } else {
      var next := Find(f, env, f.stack, current.value, false);
      SmallerRest(StackComponents(f), visited, current.value);
      var rest := PathOf(f, env, Get(f, next.value).preFocus, c, visited + {current.value});
      path := [current.value] + rest;
      assert LeadsBack(f, env, current.value, rest[0]);
      forall i | 0 <= i < |path| - 1 ensures LeadsBack(f, env, path[i], path[i + 1]) {
        if i > 0 { assert path[i] == rest[i - 1] && path[i + 1] == rest[i]; }
      }
    }
  }

  /** A component is an ancestor of an overlay exactly if a path of earlier focus leads from it there. */
  lemma {:induction false} AncestorExactly(f: Focus, env: Env, id: nat, c: Component)
    ensures IsAncestor(f, env, id, c) <==>
      exists path :: path != [] && BackPath(f, env, path) && Get(f, id).preFocus == Some(path[0])
        && path[|path| - 1] == c
  {
    hide Reaches, BackPath;
    if IsAncestor(f, env, id, c) {
      var path := PathOf(f, env, Get(f, id).preFocus, c, {});
    }
    if path :| path != [] && BackPath(f, env, path) && Get(f, id).preFocus == Some(path[0]) && path[|path| - 1] == c {
      ReachesAlong(f, env, path, {});
    }
  }

  // ----- Setting the focus

  /** The focus is on the component that interrupted an overlay which is still shown. */
  predicate Interrupted(f: Focus, env: Env) {
    && f.restore.Blocked? && f.focused == Some(f.restore.blockedBy)
    && f.restore.overlay in f.stack && Visible(f, env, f.restore.overlay)
  }

  predicate OnStack(f: Focus, c: Option<Component>) {
    c.Some? && exists id :: id in f.stack && Get(f, id).component == c.value
  }

  /** `id` is the first overlay shown with component `c`. */
  ghost predicate ShownWith(f: Focus, env: Env, c: Option<Component>, id: nat) {
    exists k :: 0 <= k < |f.stack| && f.stack[k] == id && Visible(f, env, id) && c == Some(Get(f, id).component)
      && forall j :: 0 <= j < k ==> !(Visible(f, env, f.stack[j]) && c == Some(Get(f, f.stack[j]).component))
  }

  ghost predicate NotShown(f: Focus, env: Env, c: Option<Component>) {
    forall k :: 0 <= k < |f.stack| ==> !(Visible(f, env, f.stack[k]) && c == Some(Get(f, f.stack[k]).component))
  }

  lemma {:induction false} FindFirst(f: Focus, env: Env, ids: seq<nat>, c: Component) returns (k: nat)
    requires Find(f, env, ids, c, true).Some?
    ensures k < |ids| && ids[k] == Find(f, env, ids, c, true).value
    ensures forall j :: 0 <= j < k ==> !(Visible(f, env, ids[j]) && c == Get(f, ids[j]).component)
    decreases |ids|
  {
    if Get(f, ids[0]).component == c && Visible(f, env, ids[0]) {
      k := 0;
    } else {
      k := FindFirst(f, env, ids[1..], c);
      k := k + 1;
      assert forall j :: 0 < j < k ==> ids[j] == ids[1..][j - 1];
    }
  }

  lemma {:induction false} FoundShown(f: Focus, env: Env, c: Option<Component>)
    ensures var o := FindVisible(f, env, c); if o.Some? then ShownWith(f, env, c, o.value) else NotShown(f, env, c)
  {
    var o := FindVisible(f, env, c);
    if o.Some? {
      var k := FindFirst(f, env, f.stack, c.value);
    }
  }

  /** Where the focus lands when `c` is asked for: there, unless it would leave the component that interrupts
      an overlay and nobody may stay. Then it goes to where the overlay is to resume: the target chosen for
      it, or the overlay itself when the focus is given up or the component is no longer mounted. */
  ghost predicate Lands(f: Focus, env: Env, c: Option<Component>, g: Focus) {
    if OnStack(f, c) || !Interrupted(f, env) then g.focused == c
    else if f.restore.resume.FocusTarget? then g.focused == f.restore.resume.target
    else if c.Some? && f.restore.blockedBy in env.mounted then g.focused == c
    else g.focused == Some(Get(f, f.restore.overlay).component)
  }

  lemma {:induction false} FocusLands(f: Focus, env: Env, c: Option<Component>, clear: bool)
    ensures Lands(f, env, c, SetFocusInternal(f, env, c, clear))
  {
    hide IsAncestor, FindVisible, Lit;
  }

  /** An overlay is remembered to resume: the one that got the focus, as soon as it has it; the one that lost
      it to a component that is neither an overlay nor an ancestor of it, blocked by that component. */
  lemma {:induction false} RestoreRemembers(f: Focus, env: Env, c: Option<Component>, clear: bool)
    ensures var g := SetFocusInternal(f, env, c, clear);
      && (forall id :: ShownWith(f, env, g.focused, id) ==> g.restore == Eligible(id))
      && (NotShown(f, env, g.focused) && !Interrupted(f, env) ==>
            && (c.None? ==> g.restore == if clear then Inactive else f.restore)
            && (c.Some? ==>
                  g.restore == if !OnStack(f, c) && f.restore != Inactive && Visible(f, env, f.restore.overlay)
                                  && ShownWith(f, env, f.focused, f.restore.overlay)
                                  && !IsAncestor(f, env, f.restore.overlay, c.value)
                               then Blocked(f.restore.overlay, c.value, RestoreOverlay) else f.restore))
  {
    hide IsAncestor, Lit, Find, FindVisible, NotShown, ShownWith;
    var g := SetFocusInternal(f, env, c, clear);
    FoundShown(f, env, f.focused);
    FoundShown(f, env, g.focused);
    FoundMoved(f, env, c, clear);
    forall id | ShownWith(f, env, g.focused, id) ensures g.restore == Eligible(id) {
      ShownOnce(f, env, g.focused, id);
    }
    if f.restore != Inactive && ShownWith(f, env, f.focused, f.restore.overlay) {
      ShownOnce(f, env, f.focused, f.restore.overlay);
    }
    if NotShown(f, env, g.focused) { NotFound(f, env, g.focused); }
    OnStackFound(f, env, c);
  }

  lemma {:induction false} NotFound(f: Focus, env: Env, c: Option<Component>)
    requires NotShown(f, env, c)
    ensures FindVisible(f, env, c) == None
  {
  }

  lemma {:induction false} ShownOnce(f: Focus, env: Env, c: Option<Component>, id: nat)
    requires ShownWith(f, env, c, id)
    ensures FindVisible(f, env, c) == Some(id) && id in f.stack
  {
    FoundShown(f, env, c);
  }

  lemma {:induction false} OnStackFound(f: Focus, env: Env, c: Option<Component>)
    ensures c.Some? ==> (OnStack(f, c) <==> IsOverlay(f, env, c.value))
  {
  }

  lemma {:induction false} FoundMoved(f: Focus, env: Env, c: Option<Component>, clear: bool)
    ensures var g := SetFocusInternal(f, env, c, clear); var ch := Choose(f, env, c, clear);
      var o := FindVisible(f, env, g.focused);
      g.focused == ch.next && g.restore == if o.Some? then Eligible(o.value) else ch.restore
  {
    hide Choose, Lit;
    var ch := Choose(f, env, c, clear);
    var g := f.(restore := ch.restore, focused := ch.next, flags := f.flags - Lit(f, f.focused) + Lit(f, ch.next));
    if ch.next.Some? { SameFind(f, g, env, f.stack, ch.next.value, true); }
  }

  // ----- The operations on overlays

  /** The focus is not on a component that interrupts an overlay. */
  predicate Undisputed(f: Focus) { f.restore.Blocked? ==> f.focused != Some(f.restore.blockedBy) }

  /** The focus goes to the front candidate among some overlays, or back to `pre` when there is none. */
  ghost predicate PassedOn(f: Focus, env: Env, among: set<nat>, pre: Option<Component>, to: Option<Component>) {
    if exists j :: j in among && Candidate(f, env, j)
    then exists j :: Front(f, env, among, j) && to == Some(Get(f, j).component)
    else to == pre
  }

  lemma {:induction false} PassesOn(f: Focus, g: Focus, env: Env, among: set<nat>, pre: Option<Component>)
    requires forall id :: id in among ==> id in f.stack
    requires forall id :: id in g.stack && Candidate(g, env, id) ==> id in among
    requires forall id :: id in among ==> (Candidate(f, env, id) <==> Candidate(g, env, id))
    requires forall id :: id in among ==>
      Get(g, id).component == Get(f, id).component && Get(g, id).focusOrder == Get(f, id).focusOrder
    ensures PassedOn(f, env, among, pre, Fallback(g, env, pre))
  {
    hide Topmost;
    TopmostFront(g, env, g.stack);
    var top := Topmost(g, env, g.stack);
    if top.Some? {
      assert Front(f, env, among, top.value);
    }
  }

  lemma {:induction false} SettlesOn(f: Focus, env: Env, c: Option<Component>)
    requires Undisputed(f)
    ensures SetFocus(f, env, c).focused == c
  {
    hide SetFocusInternal;
    FocusLands(f, env, c, true);
  }

  lemma {:induction false} OverlayGets(f: Focus, env: Env, id: nat)
    requires id in f.stack
    ensures SetFocus(f, env, Some(Get(f, id).component)).focused == Some(Get(f, id).component)
  {
    hide SetFocusInternal;
    FocusLands(f, env, Some(Get(f, id).component), true);
  }

  /** A new overlay gets the focus exactly if it captures input and is visible. */
  lemma {:induction false} AfterShow(f: Focus, env: Env, c: Component, nonCapturing: bool)
    ensures var g := Show(f, env, c, nonCapturing); var id := |f.entries|;
      && g.focused == (if !nonCapturing && id in env.visible then Some(c) else f.focused)
      && id in g.stack && Get(g, id) == Entry(c, f.focused, false, nonCapturing, f.counter + 1)
  {
    hide Choose, Find, Lit;
    var id := |f.entries|;
    var g := f.(entries := f.entries + [Entry(c, f.focused, false, nonCapturing, f.counter + 1)],
        stack := f.stack + [id], counter := f.counter + 1);
    OverlayGets(g, env, id);
  }

  /** A removed overlay passes the focus on if it has it, to the front one of the others or else to what had
      it before; otherwise the focus stays. */
  lemma {:induction false} AfterHide(f: Focus, env: Env, id: nat)
    requires Kept(f) && Undisputed(f) && id in f.stack
    ensures var g := Hide(f, env, id);
      if f.focused == Some(Get(f, id).component)
      then PassedOn(f, env, Stack(f) - {id}, Get(f, id).preFocus, g.focused) else g.focused == f.focused
  {
    hide SetFocusInternal, Without, Lit, Fallback, PassedOn;
    WithoutDistinct(f.stack, id);
    var g := Remove(f, id);
    PassesOn(f, g, env, Stack(f) - {id}, Get(f, id).preFocus);
    SettlesOn(g, env, Fallback(g, env, Get(f, id).preFocus));
  }

  /** Hiding passes the focus on in the same way; showing again takes it. */
  lemma {:induction false} AfterSetHidden(f: Focus, env: Env, id: nat, hidden: bool)
    requires Kept(f) && Undisputed(f) && id in f.stack
    ensures var g := SetHidden(f, env, id, hidden); var e := Get(f, id);
      if e.hidden == hidden then g == f
      else if hidden then
        if f.focused == Some(e.component) then PassedOn(f, env, Stack(f) - {id}, e.preFocus, g.focused)
        else g.focused == f.focused
      else g.focused == if !e.nonCapturing && id in env.visible then Some(e.component) else f.focused
  {
    hide SetFocusInternal, Lit, Fallback, PassedOn;
    var e := Get(f, id);
    var g := WithEntry(f, id, e.(hidden := hidden));
    var h := ClearRestoreFor(g, id);
    if hidden && !e.hidden {
      PassesOn(f, h, env, Stack(f) - {id}, e.preFocus);
      SettlesOn(h, env, Fallback(h, env, e.preFocus));
    } else {
      OverlayGets(Raise(g, id), env, id);
    }
  }

  /** Focusing an overlay works exactly while it is on the stack and visible, and brings it to the front. */
  lemma {:induction false} AfterFocusOverlay(f: Focus, env: Env, id: nat)
    requires Kept(f) && Ordered(f)
    ensures var g := FocusOverlay(f, env, id);
      if id !in f.stack || !Visible(f, env, id) then g == f
      else
        && g.focused == Some(Get(f, id).component)
        && (!Get(f, id).nonCapturing ==> Front(g, env, Stack(g), id))
  {
    hide Lit, Choose, Find;
    if id in f.stack && Visible(f, env, id) {
      OverlayGets(Raise(f, id), env, id);
    }
  }

  /** An overlay that has the focus and gives it up passes it on to the front overlay if that is another one,
      and otherwise to what had it before. */
  lemma {:induction false} AfterUnfocus(f: Focus, env: Env, id: nat)
    requires Kept(f) && Ordered(f) && Undisputed(f) && id < |f.entries|
    ensures var g := Unfocus(f, env, id, Option.None);
      if f.focused == Some(Get(f, id).component) then
        if Front(f, env, Stack(f), id) then g.focused == Get(f, id).preFocus
        else PassedOn(f, env, Stack(f), Get(f, id).preFocus, g.focused)
      else g.focused == f.focused
  {
    hide SetFocusInternal, Lit;
    var g := ClearRestoreFor(f, id);
    TopmostFront(g, env, g.stack);
    var top := Topmost(g, env, g.stack);
    var c := if top.Some? && top.value != id then Some(Get(g, top.value).component) else Get(f, id).preFocus;
    SettlesOn(g, env, c);
    if top.Some? {
      assert Front(f, env, Stack(f), top.value);
      if Front(f, env, Stack(f), id) { FrontUnique(f, env, Stack(f), id, top.value); }
    } else {
      assert forall j :: j in Stack(f) ==> (Candidate(f, env, j) <==> Candidate(g, env, j));
    }
  }

  /** With a target named, an overlay that has the focus or is to get it back gives way to the target. One
      that is interrupted at this moment keeps waiting, for the target; or without one no longer. */
  lemma {:induction false} AfterUnfocusTo(f: Focus, env: Env, id: nat, target: Option<Component>)
    requires id < |f.entries| && f.restore != Inactive && f.restore.overlay == id
    ensures var g := Unfocus(f, env, id, Some(target));
      if Undisputed(f) then g.focused == target
      else g == f.(restore := Blocked(id, f.restore.blockedBy, FocusTarget(target)))
    ensures !Undisputed(f) ==> Unfocus(f, env, id, Option.None) == f.(restore := Inactive)
  {
    hide SetFocusInternal, Topmost;
    SettlesOn(ClearRestoreFor(f, id), env, target);
  }

  /** Before input is delivered an overlay that is still to get the focus back gets it, unless the component
      that blocks it has the focus; an overlay that has the focus keeps it. */
  lemma {:induction false} AfterResume(f: Focus, env: Env)
    requires Kept(f)
    ensures var g := Resumed(f, env); var r := f.restore;
      if OnStack(f, f.focused) || r == Inactive || !Visible(f, env, r.overlay) || !Undisputed(f) then g == f
      else if r.Blocked? && r.resume.FocusTarget? then g.focused == r.resume.target
      else g.focused == Some(Get(f, r.overlay).component)
  {
    hide SetFocusInternal, Lit, Visible;
    OnStackFound(f, env, f.focused);
    if f.restore != Inactive {
      OverlayGets(f, env, f.restore.overlay);
      if f.restore.Blocked? && f.restore.resume.FocusTarget? {
        SettlesOn(f.(restore := Inactive), env, f.restore.resume.target);
      }
    }
  }

  /** An overlay that has the focus and is no longer visible passes it on to the front overlay or else back. */
  lemma {:induction false} AfterInvisible(f: Focus, env: Env, id: nat)
    requires Kept(f) && Undisputed(f) && OwnComponents(f) && id in f.stack && f.focused == Some(Get(f, id).component)
    ensures var g := LeaveInvisible(f, env);
      if Visible(f, env, id) then g == f
      else PassedOn(f, env, Stack(f), Get(f, id).preFocus, g.focused)
  {
    hide SetFocusInternal, Topmost, Lit;
    TopmostFront(f, env, f.stack);
    var top := Topmost(f, env, f.stack);
    if top.Some? { OverlayGets(f, env, top.value); }
    FocusLands(f, env, Get(f, id).preFocus, false);
    assert Find(f, env, f.stack, Get(f, id).component, false) == Some(id) by { OnlyOwner(f, env, id); }
  }

  lemma {:induction false} OnlyOwner(f: Focus, env: Env, id: nat)
    requires Kept(f) && OwnComponents(f) && id in f.stack
    ensures Find(f, env, f.stack, Get(f, id).component, false) == Some(id)
  {
    hide Lit;
  }
}
