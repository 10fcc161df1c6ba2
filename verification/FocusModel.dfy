/** Which component has the keyboard: overlays take the focus when shown, give it back when they go,
    and may be interrupted by another component and resumed. */
module FocusModel {
  import opened Basics

  /** Components are told apart by identity only. */
  type Component = nat

  /** An overlay. Handles keep their entry after the overlay has left the stack. */
  datatype Entry = Entry(component: Component, preFocus: Option<Component>, hidden: bool, nonCapturing: bool,
      focusOrder: nat)

  datatype Resume = RestoreOverlay | FocusTarget(target: Option<Component>)

  datatype Restore = Inactive | Eligible(overlay: nat) | Blocked(overlay: nat, blockedBy: Component, resume: Resume)

  /** `entries` holds every overlay ever shown, by identity; `stack` those on screen or hidden. `flags`
      are the components whose `focused` is set, among those that have one. */
  datatype Focus = Focus(entries: seq<Entry>, stack: seq<nat>, focused: Option<Component>, restore: Restore,
      counter: nat, flags: set<Component>, focusable: set<Component>)

  /** What the callbacks and the component tree say at the time of a call. */
  datatype Env = Env(visible: set<nat>, mounted: set<Component>)

  const NO_ENTRY := Entry(0, None, false, false, 0)

  function Get(f: Focus, id: nat): Entry { if id < |f.entries| then f.entries[id] else NO_ENTRY }

  predicate Visible(f: Focus, env: Env, id: nat) { !Get(f, id).hidden && id in env.visible }

  /** The first overlay of `ids` with this component, visible if asked. */
  function Find(f: Focus, env: Env, ids: seq<nat>, c: Component, visible: bool): (r: Option<nat>)
    ensures r.Some? ==> r.value in ids && Get(f, r.value).component == c && (visible ==> Visible(f, env, r.value))
    ensures r.None? ==> forall id :: id in ids && (visible ==> Visible(f, env, id)) ==> Get(f, id).component != c
  {
    if ids == [] then None
    else if Get(f, ids[0]).component == c && (visible ==> Visible(f, env, ids[0])) then Some(ids[0])
    else Find(f, env, ids[1..], c, visible)
  }

  function FindVisible(f: Focus, env: Env, c: Option<Component>): (r: Option<nat>)
    ensures r.Some? ==> r.value in f.stack && c == Some(Get(f, r.value).component)
  {
    if c.None? then None else Find(f, env, f.stack, c.value, true)
  }

  predicate IsOverlay(f: Focus, env: Env, c: Component) { Find(f, env, f.stack, c, false).Some? }

  function VisibleRestore(f: Focus, env: Env): Restore {
    if f.restore.Inactive? || f.restore.overlay !in f.stack || !Visible(f, env, f.restore.overlay) then Inactive
    else f.restore
  }

  function StackComponents(f: Focus): set<Component> { set id | id in f.stack :: Get(f, id).component }

  /** Follows the chain of earlier focus from `current`, each component once. */
  predicate Reaches(f: Focus, env: Env, current: Option<Component>, c: Component, visited: set<Component>)
    decreases |StackComponents(f) - visited|
  {
    if current.None? || current.value in visited then false
    else if current.value == c then true
    else
      var next := Find(f, env, f.stack, current.value, false);
      if next.None? then false else
        assert current.value in StackComponents(f) - visited;
        SmallerRest(StackComponents(f), visited, current.value);
        Reaches(f, env, Get(f, next.value).preFocus, c, visited + {current.value})
  }

  lemma {:induction false} SmallerRest(all: set<Component>, visited: set<Component>, c: Component)
    requires c in all - visited
    ensures |all - (visited + {c})| < |all - visited|
  {
    assert all - (visited + {c}) == (all - visited) - {c};
  }

  predicate IsAncestor(f: Focus, env: Env, id: nat, c: Component) { Reaches(f, env, Get(f, id).preFocus, c, {}) }

  // ----- Setting the focus

  /** A restore state and the component to focus. */
  datatype Choice = Choice(restore: Restore, next: Option<Component>)

  function Resolve(f: Focus, r: Restore): Choice
    requires r.Blocked?
  {
    if r.resume.RestoreOverlay? then Choice(f.restore, Some(Get(f, r.overlay).component))
    else Choice(Inactive, r.resume.target)
  }

  /** What `setFocusInternal` decides before it moves the focus. */
  function Choose(f: Focus, env: Env, c: Option<Component>, clear: bool): Choice {
    var previous := FindVisible(f, env, f.focused);
    var r := VisibleRestore(f, env);
    var blocking := r.Blocked? && f.focused == Some(r.blockedBy);
    if c.Some? && !IsOverlay(f, env, c.value) then
      if blocking then
        if r.resume.FocusTarget? || r.blockedBy !in env.mounted then Resolve(f, r)
        else Choice(Blocked(r.overlay, c.value, r.resume), c)
      else if previous.Some? && !r.Inactive? && r.overlay == previous.value
          && !IsAncestor(f, env, previous.value, c.value) then
        Choice(Blocked(previous.value, c.value, RestoreOverlay), c)
      else Choice(f.restore, c)
    else if c.None? then
      if blocking then Resolve(f, r) else if clear then Choice(Inactive, c) else Choice(f.restore, c)
    else Choice(f.restore, c)
  }

  function Lit(f: Focus, c: Option<Component>): set<Component> {
    if c.Some? && c.value in f.focusable then {c.value} else {}
  }

  function Move(f: Focus, env: Env, ch: Choice): Focus {
    var g := f.(restore := ch.restore, focused := ch.next, flags := f.flags - Lit(f, f.focused) + Lit(f, ch.next));
    var overlay := FindVisible(g, env, ch.next);
    if overlay.Some? then g.(restore := Eligible(overlay.value)) else g
  }

  function SetFocusInternal(f: Focus, env: Env, c: Option<Component>, clear: bool): Focus {
    Move(f, env, Choose(f, env, c, clear))
  }

  function SetFocus(f: Focus, env: Env, c: Option<Component>): Focus { SetFocusInternal(f, env, c, true) }

  // ----- Overlays

  /** The visible capturing overlay that was focused last. */
  function Topmost(f: Focus, env: Env, ids: seq<nat>): (r: Option<nat>)
    ensures r.Some? ==> r.value in ids && !Get(f, r.value).nonCapturing && Visible(f, env, r.value)
    ensures forall id :: id in ids && !Get(f, id).nonCapturing && Visible(f, env, id) ==>
      r.Some? && Get(f, id).focusOrder <= Get(f, r.value).focusOrder
  {
    if ids == [] then None else
      var last := ids[|ids| - 1];
      var top := Topmost(f, env, ids[..|ids| - 1]);
      if Get(f, last).nonCapturing || !Visible(f, env, last) then top
      else if top.None? || Get(f, last).focusOrder > Get(f, top.value).focusOrder then Some(last)
      else top
  }

  function Fallback(f: Focus, env: Env, preFocus: Option<Component>): Option<Component> {
    var top := Topmost(f, env, f.stack);
    if top.Some? then Some(Get(f, top.value).component) else preFocus
  }

  function ClearRestoreFor(f: Focus, id: nat): Focus {
    if !f.restore.Inactive? && f.restore.overlay == id then f.(restore := Inactive) else f
  }

  /** The entries after overlay `id` has gone: whoever would have given the focus back to it gives it
      to what it would have given the focus back to. */
  function Retargeted(f: Focus, id: nat): (r: seq<Entry>)
    ensures |r| == |f.entries|
    ensures forall k :: 0 <= k < |r| ==>
      r[k] == if k in f.stack && k != id && f.entries[k].preFocus == Some(Get(f, id).component)
              then f.entries[k].(preFocus := Get(f, id).preFocus) else f.entries[k]
  {
    seq(|f.entries|, k requires 0 <= k < |f.entries| =>
      if k in f.stack && k != id && f.entries[k].preFocus == Some(Get(f, id).component)
      then f.entries[k].(preFocus := Get(f, id).preFocus) else f.entries[k])
  }

  function Without(ids: seq<nat>, id: nat): (r: seq<nat>)
    ensures forall k :: k in r ==> k in ids
    ensures forall k :: k in ids && k != id ==> k in r
  {
    if ids == [] then [] else if ids[0] == id then ids[1..] else [ids[0]] + Without(ids[1..], id)
  }

  function Remove(f: Focus, id: nat): Focus {
    var g := ClearRestoreFor(f, id);
    g.(entries := Retargeted(g, id), stack := Without(g.stack, id))
  }

  function Show(f: Focus, env: Env, c: Component, nonCapturing: bool): Focus {
    var id := |f.entries|;
    var g := f.(entries := f.entries + [Entry(c, f.focused, false, nonCapturing, f.counter + 1)],
        stack := f.stack + [id], counter := f.counter + 1);
    if !nonCapturing && Visible(g, env, id) then SetFocus(g, env, Some(c)) else g
  }

  function Hide(f: Focus, env: Env, id: nat): Focus {
    if id !in f.stack then f else
      var g := Remove(f, id);
      if f.focused == Some(Get(f, id).component) then SetFocus(g, env, Fallback(g, env, Get(f, id).preFocus)) else g
  }

  function HideTop(f: Focus, env: Env): Focus { if f.stack == [] then f else Hide(f, env, f.stack[|f.stack| - 1]) }

  function WithEntry(f: Focus, id: nat, e: Entry): Focus {
    if id < |f.entries| then f.(entries := f.entries[id := e]) else f
  }

  /** Gives an overlay the next place in the focus order. */
  function Raise(f: Focus, id: nat): Focus {
    WithEntry(f, id, Get(f, id).(focusOrder := f.counter + 1)).(counter := f.counter + 1)
  }

  function SetHidden(f: Focus, env: Env, id: nat, hidden: bool): Focus {
    var e := Get(f, id);
    if id >= |f.entries| || e.hidden == hidden then f else
      var g := WithEntry(f, id, e.(hidden := hidden));
      if hidden then
        var h := ClearRestoreFor(g, id);
        if f.focused == Some(e.component) then SetFocus(h, env, Fallback(h, env, e.preFocus)) else h
      else if !e.nonCapturing && Visible(g, env, id) then SetFocus(Raise(g, id), env, Some(e.component))
      else g
  }

  function FocusOverlay(f: Focus, env: Env, id: nat): Focus {
    if id !in f.stack || !Visible(f, env, id) then f else SetFocus(Raise(f, id), env, Some(Get(f, id).component))
  }

  /** `options` is absent, or names the component to focus instead. */
  function Unfocus(f: Focus, env: Env, id: nat, options: Option<Option<Component>>): Focus {
    var e, r := Get(f, id), f.restore;
    var isFocused, pending := f.focused == Some(e.component), !r.Inactive? && r.overlay == id;
    if id >= |f.entries| || (!isFocused && !pending) then f
    else if r.Blocked? && r.overlay == id && f.focused == Some(r.blockedBy) then
      f.(restore := if options.Some? then Blocked(id, r.blockedBy, FocusTarget(options.value)) else Inactive)
    else
      var g := ClearRestoreFor(f, id);
      var top := Topmost(g, env, g.stack);
      var fallback := if top.Some? && top.value != id then Some(Get(g, top.value).component) else e.preFocus;
      if options.Some? then SetFocus(g, env, options.value) else if isFocused then SetFocus(g, env, fallback) else g
  }

  /** A focused overlay that is no longer visible passes the focus on. */
  function LeaveInvisible(f: Focus, env: Env): Focus {
    var o := if f.focused.None? then None else Find(f, env, f.stack, f.focused.value, false);
    if o.None? || Visible(f, env, o.value) then f else
      var top := Topmost(f, env, f.stack);
      if top.Some? then SetFocus(f, env, Some(Get(f, top.value).component))
      else SetFocusInternal(f, env, Get(f, o.value).preFocus, false)
  }

  /** An overlay that was interrupted gets the focus back. */
  function Resumed(f: Focus, env: Env): Focus {
    if f.focused.Some? && IsOverlay(f, env, f.focused.value) then f else
      var r := VisibleRestore(f, env);
      if r.Eligible? then SetFocus(f, env, Some(Get(f, r.overlay).component))
      else if r.Blocked? && f.focused != Some(r.blockedBy) then
        if r.resume.RestoreOverlay? then SetFocus(f, env, Some(Get(f, r.overlay).component))
        else SetFocus(f.(restore := Inactive), env, r.resume.target)
      else f
  }

  function Input(f: Focus, env: Env): Focus { Resumed(LeaveInvisible(f, env), env) }

  // ----- Runs

  datatype Event =
    | Shows(component: Component, nonCapturing: bool) | Hides(id: nat) | HidesTop
    | SetsHidden(id: nat, hidden: bool) | FocusesOverlay(id: nat) | Unfocuses(id: nat,
        options: Option<Option<Component>>)
    | SetsFocus(target: Option<Component>) | Inputs

  function Step(f: Focus, env: Env, e: Event): Focus {
    match e
    case Shows(c, n) => Show(f, env, c, n)
    case Hides(id) => Hide(f, env, id)
    case HidesTop => HideTop(f, env)
    case SetsHidden(id, hidden) => SetHidden(f, env, id, hidden)
    case FocusesOverlay(id) => FocusOverlay(f, env, id)
    case Unfocuses(id, options) => Unfocus(f, env, id, options)
    case SetsFocus(c) => SetFocus(f, env, c)
    case Inputs => Input(f, env)
  }

  function Initial(focusable: set<Component>): Focus { Focus([], [], None, Inactive, 0, {}, focusable) }
}
