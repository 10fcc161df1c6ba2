/** The focus machine as an object that changes its state in place. */
module FocusObject {
  import opened Basics
  import opened FocusModel
  import opened FocusProofs

  class FocusManager {
    /** Overlays, focus and pending restore. */
    var state: Focus

    ghost predicate Valid()
      reads this
    {
      Kept(state)
    }

    constructor (focusable: set<Component>)
      ensures Valid() && state == Initial(focusable)
    {
      state := Initial(focusable);
    }

    // ----- Queries

    method FindOverlay(env: Env, c: Component, visible: bool) returns (r: Option<nat>)
      ensures r == Find(state, env, state.stack, c, visible)
    {
      var i := 0;
      while i < |state.stack|
        invariant 0 <= i <= |state.stack|
        invariant Find(state, env, state.stack, c, visible) == Find(state, env, state.stack[i..], c, visible)
      {
        var id := state.stack[i];
        if Get(state, id).component == c && (!visible || Visible(state, env, id)) { return Some(id); }
        assert state.stack[i..][1..] == state.stack[i + 1..];
        i := i + 1;
      }
      return None;
    }

    method TopmostVisible(env: Env) returns (topmost: Option<nat>)
      ensures topmost == Topmost(state, env, state.stack)
    {
      topmost := None;
      var i := 0;
      assert state.stack[..0] == [];
      while i < |state.stack|
        invariant 0 <= i <= |state.stack| && topmost == Topmost(state, env, state.stack[..i])
      {
        var id := state.stack[i];
        assert state.stack[..i + 1][..i] == state.stack[..i];
        if !Get(state, id).nonCapturing && Visible(state, env, id) {
          if topmost.None? || Get(state, id).focusOrder > Get(state, topmost.value).focusOrder { topmost := Some(id); }
        }
        i := i + 1;
      }
      assert state.stack[..i] == state.stack;
    }

    /** Follows earlier focus back from an overlay, looking for a component. */
    method IsOverlayFocusAncestor(env: Env, id: nat, c: Component) returns (r: bool)
      ensures r == IsAncestor(state, env, id, c)
    {
      hide Find;
      var visited: set<Component>, current := {}, Get(state, id).preFocus;
      while current.Some? && current.value !in visited
        invariant IsAncestor(state, env, id, c) == Reaches(state, env, current, c, visited)
        decreases |StackComponents(state) - visited|, if current.Some? then 1 else 0
      {
        var at := current.value;
        if at == c { return true; }
        var next := FindOverlay(env, at, false);
        if next.None? {
          current := None;
          assert !IsAncestor(state, env, id, c);
        } else {
          assert at in StackComponents(state) - visited;
          SmallerRest(StackComponents(state), visited, at);
          current := Get(state, next.value).preFocus;
          visited := visited + {at};
        }
      }
      return false;
    }

    // ----- Moving the focus

    method SetFocusInternal(env: Env, component: Option<Component>, clear: bool)
      requires Valid()
      modifies this
      ensures Valid() && state == FocusModel.SetFocusInternal(old(state), env, component, clear)
    {
      hide Kept, Find, Move, IsAncestor;
      SetFocusKept(state, env, component, clear);
      var previousFocus, nextFocus := state.focused, component;
      var previousOverlay: Option<nat> := None;
      if previousFocus.Some? { previousOverlay := FindOverlay(env, previousFocus.value, true); }
      var nextIsOverlay := false;
      if nextFocus.Some? { var o := FindOverlay(env, nextFocus.value, false); nextIsOverlay := o.Some?; }
      var r := VisibleRestore(state, env);
      var restore := state.restore;
      if nextFocus.Some? && !nextIsOverlay {
        if r.Blocked? && previousFocus == Some(r.blockedBy) {
          if r.resume.FocusTarget? || r.blockedBy !in env.mounted {
            var ch := Resolve(state, r);
            restore, nextFocus := ch.restore, ch.next;
          } else {
            restore := Blocked(r.overlay, nextFocus.value, r.resume);
          }
        } else if previousOverlay.Some? && !r.Inactive? && r.overlay == previousOverlay.value {
          var ancestor := IsOverlayFocusAncestor(env, previousOverlay.value, nextFocus.value);
          if !ancestor { restore := Blocked(previousOverlay.value, nextFocus.value, RestoreOverlay); }
        }
      } else if nextFocus.None? {
        if r.Blocked? && previousFocus == Some(r.blockedBy) {
          var ch := Resolve(state, r);
          restore, nextFocus := ch.restore, ch.next;
        } else if clear {
          restore := Inactive;
        }
      }
      assert Choose(state, env, component, clear) == Choice(restore, nextFocus);
      MoveFocus(env, restore, nextFocus);
    }

    /** Unmarks the old component, marks the new one, and notes an overlay that got the focus. */
    method MoveFocus(env: Env, restore: Restore, next: Option<Component>)
      modifies this
      ensures state == Move(old(state), env, Choice(restore, next))
    {
      hide Find;
      state := state.(restore := restore);
      if state.focused.Some? && state.focused.value in state.focusable {
        state := state.(flags := state.flags - {state.focused.value});
      }
      state := state.(focused := next);
      if next.Some? && next.value in state.focusable {
        state := state.(flags := state.flags + {next.value});
      }
      MarksAgree(old(state), state, restore, next);
      if next.Some? {
        var overlay := FindOverlay(env, next.value, true);
        if overlay.Some? { state := state.(restore := Eligible(overlay.value)); }
      }
    }

    method SetFocus(env: Env, component: Option<Component>)
      requires Valid()
      modifies this
      ensures Valid() && state == FocusModel.SetFocus(old(state), env, component)
    {
      hide FocusModel.SetFocusInternal;
      SetFocusInternal(env, component, true);
    }

    method ClearRestoreFor(id: nat)
      requires Valid()
      modifies this
      ensures Valid() && state == FocusModel.ClearRestoreFor(old(state), id)
    {
      EntryKept(state, id, NO_ENTRY);
      if !state.restore.Inactive? && state.restore.overlay == id { state := state.(restore := Inactive); }
    }

    /** Whoever would give the focus back to a removed overlay skips it. */
    method RetargetPreFocus(removed: nat)
      requires Valid()
      modifies this
      ensures Valid() && state == old(state).(entries := Retargeted(old(state), removed))
    {
      var gone := Get(state, removed);
      var i := 0;
      while i < |state.stack|
        invariant 0 <= i <= |state.stack| && state == old(state).(entries := state.entries)
          && |state.entries| == |old(state).entries|
        invariant removed < |state.entries| ==> state.entries[removed] == old(state).entries[removed]
        invariant forall k :: 0 <= k < |state.entries| ==>
          state.entries[k] == if k in state.stack[..i] then Retargeted(old(state), removed)[k]
          else old(state).entries[k]
      {
        var id := state.stack[i];
        assert id in state.stack && state.stack[..i + 1] == state.stack[..i] + [id];
        assert id !in state.stack[..i];
        if id != removed && state.entries[id].preFocus == Some(gone.component) {
          state := state.(entries := state.entries[id := state.entries[id].(preFocus := gone.preFocus)]);
        }
        i := i + 1;
      }
      assert state.stack[..i] == state.stack;
      assert state.entries == Retargeted(old(state), removed);
    }

    // ----- Overlays and their handles

    method ShowOverlay(env: Env, component: Component, nonCapturing: bool) returns (id: nat)
      requires Valid()
      modifies this
      ensures Valid() && state == Show(old(state), env, component, nonCapturing) && id == |old(state).entries|
    {
      hide FocusModel.SetFocusInternal, Kept, Visible;
      ShownKept(state, component, nonCapturing);
      id := |state.entries|;
      var entry := Entry(component, state.focused, false, nonCapturing, state.counter + 1);
      state := state.(counter := state.counter + 1, entries := state.entries + [entry], stack := state.stack + [id]);
      if !nonCapturing && Visible(state, env, id) { SetFocus(env, Some(component)); }
    }

    method FocusFallback(env: Env, preFocus: Option<Component>)
      requires Valid()
      modifies this
      ensures Valid() && state == FocusModel.SetFocus(old(state), env, Fallback(old(state), env, preFocus))
    {
      hide FocusModel.SetFocusInternal, Kept, Topmost;
      var topVisible := TopmostVisible(env);
      SetFocus(env, if topVisible.Some? then Some(Get(state, topVisible.value).component) else preFocus);
    }

    /** The handle's `hide`. */
    method HideEntry(env: Env, id: nat)
      requires Valid()
      modifies this
      ensures Valid() && state == Hide(old(state), env, id)
    {
      hide FocusModel.SetFocusInternal, Kept, Fallback, Retargeted, Without;
      RemoveKept(state, id);
      if id !in state.stack { return; }
      var entry := Get(state, id);
      ClearRestoreFor(id);
      RetargetPreFocus(id);
      state := state.(stack := Without(state.stack, id));
      if state.focused == Some(entry.component) { FocusFallback(env, entry.preFocus); }
    }

    method HideOverlay(env: Env)
      requires Valid()
      modifies this
      ensures Valid() && state == HideTop(old(state), env)
    {
      hide Hide, Kept;
      if state.stack == [] { return; }
      HideEntry(env, state.stack[|state.stack| - 1]);
    }

    method SetHidden(env: Env, id: nat, hidden: bool)
      requires Valid() && id < |state.entries|
      modifies this
      ensures Valid() && state == FocusModel.SetHidden(old(state), env, id, hidden)
    {
      hide FocusModel.SetFocusInternal, Kept, Fallback, FocusModel.ClearRestoreFor, Visible;
      var entry := Get(state, id);
      if entry.hidden == hidden { return; }
      EntryKept(state, id, entry.(hidden := hidden));
      state := WithEntry(state, id, entry.(hidden := hidden));
      EntryKept(state, id, NO_ENTRY);
      if hidden {
        SameFocus(state, id);
        ClearRestoreFor(id);
        if state.focused == Some(entry.component) { FocusFallback(env, entry.preFocus); }
      } else if !entry.nonCapturing && Visible(state, env, id) {
        state := Raise(state, id);
        SetFocus(env, Some(entry.component));
      }
    }

    method FocusEntry(env: Env, id: nat)
      requires Valid()
      modifies this
      ensures Valid() && state == FocusOverlay(old(state), env, id)
    {
      hide FocusModel.SetFocusInternal, Kept, Visible;
      if id !in state.stack || !Visible(state, env, id) { return; }
      EntryKept(state, id, NO_ENTRY);
      var component := Get(state, id).component;
      state := Raise(state, id);
      SetFocus(env, Some(component));
    }

    method UnfocusEntry(env: Env, id: nat, options: Option<Option<Component>>)
      requires Valid() && id < |state.entries|
      modifies this
      ensures Valid() && state == Unfocus(old(state), env, id, options)
    {
      hide FocusModel.SetFocusInternal, Kept, Topmost;
      var entry, r := Get(state, id), state.restore;
      var isFocused := state.focused == Some(entry.component);
      if !isFocused && !(!r.Inactive? && r.overlay == id) { return; }
      if r.Blocked? && r.overlay == id && state.focused == Some(r.blockedBy) {
        RestoreKept(state, options);
        if options.Some? {
          state := state.(restore := Blocked(id, r.blockedBy, FocusTarget(options.value)));
        } else {
          state := state.(restore := Inactive);
        }
        return;
      }
      ClearRestoreFor(id);
      if isFocused || options.Some? {
        var topVisible := TopmostVisible(env);
        var fallback := if topVisible.Some? && topVisible.value != id then Some(Get(state, topVisible.value).component)
        else entry.preFocus;
        SetFocus(env, if options.Some? then options.value else fallback);
      }
    }

    /** What a key press does to the focus before it is delivered. */
    method HandleInput(env: Env)
      requires Valid()
      modifies this
      ensures Valid() && state == Input(old(state), env)
    {
      hide FocusModel.SetFocusInternal, Kept, Find, Topmost, Visible, Resumed;
      if state.focused.Some? {
        var o := FindOverlay(env, state.focused.value, false);
        if o.Some? && !Visible(state, env, o.value) {
          var topVisible := TopmostVisible(env);
          if topVisible.Some? {
            SetFocus(env, Some(Get(state, topVisible.value).component));
          } else {
            SetFocusInternal(env, Get(state, o.value).preFocus, false);
          }
        }
      }
      assert state == LeaveInvisible(old(state), env);
      ResumeFocus(env);
    }

    method ResumeFocus(env: Env)
      requires Valid()
      modifies this
      ensures Valid() && state == Resumed(old(state), env)
    {
      hide FocusModel.SetFocusInternal, Kept, Find, Visible;
      if state.focused.Some? {
        var o := FindOverlay(env, state.focused.value, false);
        if o.Some? { return; }
      }
      var r := VisibleRestore(state, env);
      if r.Eligible? {
        SetFocus(env, Some(Get(state, r.overlay).component));
      } else if r.Blocked? && state.focused != Some(r.blockedBy) {
        if r.resume.RestoreOverlay? {
          SetFocus(env, Some(Get(state, r.overlay).component));
        } else {
          InactiveKept(state);
          state := state.(restore := Inactive);
          SetFocus(env, r.resume.target);
        }
      }
    }
  }

  lemma {:induction false} MarksAgree(f: Focus, g: Focus, restore: Restore, next: Option<Component>)
    requires g.flags
      == (if f.focused.Some? && f.focused.value in f.focusable then f.flags - {f.focused.value} else f.flags)
                        + (if next.Some? && next.value in f.focusable then {next.value} else {})
    ensures g.flags == f.flags - Lit(f, f.focused) + Lit(f, next)
  {
  }

  lemma {:induction false} SameFocus(f: Focus, id: nat)
    ensures FocusModel.ClearRestoreFor(f, id).focused == f.focused
  {
  }

  lemma {:induction false} RestoreKept(f: Focus, options: Option<Option<Component>>)
    requires Kept(f) && f.restore.Blocked?
    ensures Kept(f.(restore := Inactive))
    ensures options.Some? ==>
      Kept(f.(restore := Blocked(f.restore.overlay, f.restore.blockedBy, FocusTarget(options.value))))
  {
  }
}
