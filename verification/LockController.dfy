/** The session-lock controller as it runs: its outputs and surfaces are objects updated in place, each
handler is a method, and every method is the transition of the same name in `SessionLock`. */
module LockController {
  import opened Seqs
  import opened SessionLock

  class LockOutput {
    const output: nat
    var presented: bool
    var secureCommitPending: bool
    var secureCommitSeq: Wire

    constructor (output: nat, presented: bool)
      ensures this.output == output && View() == OutputState(output, presented, false, 0)
    {
      this.output, this.presented, secureCommitPending, secureCommitSeq := output, presented, false, 0;
    }

    ghost function View(): OutputState
      reads this
    {
      OutputState(output, presented, secureCommitPending, secureCommitSeq)
    }
  }

  class LockSurface {
    const surface: nat
    var active: bool

    constructor (surface: nat)
      ensures this.surface == surface && View() == SurfaceState(surface, true)
    {
      this.surface, active := surface, true;
    }

    ghost function View(): SurfaceState
      reads this
    {
      SurfaceState(surface, active)
    }
  }

  class Controller {
    var lock: Option<nat>
    var outputs: seq<LockOutput>
    var surfaces: seq<LockSurface>
    var secure: bool
    var lockedSent: bool
    /** Whether the seat has a keyboard, and the surface it is focused on. */
    var keyboard: bool
    var focus: Option<nat>
    /** The state this controller is in, seen as a value. */
    ghost var state: LockState

    ghost predicate OutputsMatch()
      reads this, outputs
    {
      Listed(outputs, state.outputs)
    }

    ghost predicate SurfacesMatch()
      reads this, surfaces
    {
      && |state.surfaces| == |surfaces| && NoDup(surfaces)
      && forall i :: 0 <= i < |surfaces| ==> surfaces[i].View() == state.surfaces[i]
    }

    ghost predicate Valid()
      reads this, outputs, surfaces
    {
      && OutputsMatch() && SurfacesMatch()
      && state.lock == lock && state.secure == secure && state.lockedSent == lockedSent
      && state.keyboard == keyboard && state.focus == focus
    }

    constructor ()
      ensures Valid() && state == Initial.c
    {
      lock, outputs, surfaces, secure, lockedSent, keyboard, focus := None, [], [], false, false, false, None;
      state := Initial.c;
    }

    // ----- searches

    method FindOutput(output: nat) returns (entry: LockOutput?, at: nat)
      requires Valid()
      ensures entry == null <==> !Knows(state.outputs, output)
      ensures entry != null ==> at < |outputs| && outputs[at] == entry && entry.output == output
    {
      at := 0;
      for i := 0 to |outputs|
        invariant forall j :: 0 <= j < i ==> state.outputs[j].output != output
      {
        if outputs[i].output == output {
          return outputs[i], i;
        }
      }
      return null, 0;
    }

    method SurfaceIsCurrent(surface: nat) returns (current: bool)
      requires Valid()
      ensures current == Current(state.surfaces, surface)
    {
      for i := 0 to |surfaces|
        invariant forall j :: 0 <= j < i ==> !(state.surfaces[j].active && state.surfaces[j].surface == surface)
      {
        if surfaces[i].active && surfaces[i].surface == surface {
          return true;
        }
      }
      return false;
    }

    method OutputsPresented() returns (all: bool)
      requires Valid()
      ensures all == AllPresented(state.outputs)
    {
      for i := 0 to |outputs|
        invariant forall j :: 0 <= j < i ==> state.outputs[j].presented
      {
        if !outputs[i].presented {
          return false;
        }
      }
      return true;
    }

    // ----- parts of the handlers

    method MaybeSendLocked()
      requires Valid()
      modifies `lockedSent, `state
      ensures Valid() && state == SessionLock.MaybeSendLocked(old(state))
    {
      if lock.None? || lockedSent || !secure {
        return;
      }
      var all := OutputsPresented();
      if all {
        lockedSent := true;
        state := SessionLock.MaybeSendLocked(state);
      }
    }

    method ScheduleLockedFrames()
      requires Valid()
      modifies `lockedSent, `state, outputs
      ensures Valid() && state == SessionLock.ScheduleLockedFrames(old(state))
    {
      ghost var was := state;
      for i := 0 to |outputs|
        invariant forall j :: 0 <= j < i ==> outputs[j].View() == was.outputs[j].After(Reset)
        invariant forall j :: i <= j < |outputs| ==> outputs[j].View() == was.outputs[j]
        invariant lockedSent == was.lockedSent && state == was
      {
        outputs[i].presented := false;
        outputs[i].secureCommitPending := false;
      }
      ResetDiffers(was.outputs);
      state := state.(outputs := Each(was.outputs, Reset));
      MaybeSendLocked();
    }

    method DeactivateSurfaces()
      requires Valid()
      modifies `state, surfaces
      ensures Valid() && state == old(state).(surfaces := Deactivated(old(state).surfaces))
    {
      ghost var was := state;
      for i := 0 to |surfaces|
        invariant forall j :: 0 <= j < i ==> surfaces[j].View() == was.surfaces[j].(active := false)
        invariant forall j :: i <= j < |surfaces| ==> surfaces[j].View() == was.surfaces[j]
        invariant state == was
      {
        surfaces[i].active := false;
      }
      state := state.(surfaces := Deactivated(was.surfaces));
    }

    method FocusSurface(surface: Option<nat>)
      requires Valid()
      modifies `focus, `state
      ensures Valid() && state == SessionLock.FocusSurface(old(state), surface)
    {
      if surface.None? {
        focus := None;
      } else {
        var allowed := true;
        if secure {
          allowed := SurfaceIsCurrent(surface.value);
        }
        if allowed && keyboard {
          focus := surface;
        }
      }
      state := SessionLock.FocusSurface(state, surface);
    }

    method FocusFirst()
      requires Valid()
      modifies `focus, `state
      ensures Valid() && state == SessionLock.FocusSurface(old(state), FirstActive(old(state).surfaces))
    {
      for i := 0 to |surfaces|
        invariant FirstActive(state.surfaces) == FirstActive(state.surfaces[i..])
      {
        if surfaces[i].active {
          FocusSurface(Some(surfaces[i].surface));
          return;
        }
      }
      FocusSurface(None);
    }

    method EnterSecure()
      requires Valid()
      modifies `secure, `lockedSent, `focus, `state, outputs
      ensures Valid() && state == SessionLock.EnterSecure(old(state))
    {
      if !secure {
        secure := true;
        state := state.(secure := true);
        FocusSurface(None);
      }
      lockedSent := false;
      state := state.(lockedSent := false);
      ScheduleLockedFrames();
    }

    method LeaveSecure()
      requires Valid()
      modifies `secure, `lockedSent, `state, surfaces
      ensures Valid() && state == SessionLock.LeaveSecure(old(state))
    {
      if !secure {
        return;
      }
      DeactivateSurfaces();
      secure := false;
      lockedSent := false;
      state := state.(secure := false, lockedSent := false);
    }

    // ----- handlers

    method HandleNewLock(newLock: nat)
      requires Valid()
      modifies this, outputs
      ensures Valid() && state == NewLock(old(state), newLock)
    {
      if lock.Some? {
        return;
      }
      lock := Some(newLock);
      state := state.(lock := lock);
      EnterSecure();
    }

    method HandleUnlock()
      requires Valid()
      modifies this, surfaces
      ensures Valid() && state == Unlock(old(state))
    {
      if lock.Some? && lockedSent {
        LeaveSecure();
      }
    }

    method HandleLockDestroy()
      requires Valid()
      modifies this, outputs, surfaces
      ensures Valid() && state == DestroyLock(old(state))
    {
      if lock.None? {
        return;
      }
      var wasLocked := lockedSent;
      lock := None;
      lockedSent := false;
      state := state.(lock := None, lockedSent := false);
      DeactivateSurfaces();
      if !wasLocked {
        LeaveSecure();
        return;
      }
      FocusSurface(None);
      ScheduleLockedFrames();
    }

    method HandleNewSurface(surface: nat, usable: bool)
      requires Valid()
      modifies this
      ensures Valid() && state == NewSurface(old(state), surface, usable)
    {
      if lock.None? || !usable {
        return;
      }
      var entry := new LockSurface(surface);
      surfaces := surfaces + [entry];
      state := state.(surfaces := state.surfaces + [SurfaceState(surface, true)]);
      if secure {
        var current := false;
        if focus.Some? {
          current := SurfaceIsCurrent(focus.value);
        }
        if !current {
          FocusSurface(Some(surface));
        }
      }
    }

    method HandleSurfaceDestroy(index: nat)
      requires Valid()
      modifies this, surfaces
      ensures Valid() && state == DestroySurface(old(state), index)
    {
      hide FirstActive, Listed;
      if index >= |surfaces| {
        return;
      }
      var entry := surfaces[index];
      if focus == Some(entry.surface) {
        FocusSurface(None);
      }
      surfaces := surfaces[..index] + surfaces[index + 1..];
      state := state.(surfaces := state.surfaces[..index] + state.surfaces[index + 1..]);
      if secure {
        FocusFirst();
      }
    }

    method OutputAdd(output: nat, usable: bool)
      requires Valid()
      modifies `outputs, `state
      ensures Valid() && state == AddOutput(old(state), output, usable)
    {
      var found, _ := FindOutput(output);
      if found != null || !usable {
        return;
      }
      var entry := new LockOutput(output, !secure);
      outputs := outputs + [entry];
      state := AddOutput(state, output, usable);
    }

    method CutOutput(at: nat)
      requires Valid() && at < |outputs|
      modifies `outputs, `state
      ensures Valid() && state == old(state).(outputs := Dropped(old(state.outputs), old(outputs[at].output)))
    {
      ghost var was := state.outputs;
      DroppedAt(was, at);
      CutListed(outputs, was, at);
      outputs := outputs[..at] + outputs[at + 1..];
      state := state.(outputs := was[..at] + was[at + 1..]);
    }

    method OutputRemove(output: nat)
      requires Valid()
      modifies `outputs, `lockedSent, `state
      ensures Valid() && state == RemoveOutput(old(state), output)
    {
      var found, at := FindOutput(output);
      if found == null {
        return;
      }
      CutOutput(at);
      MaybeSendLocked();
    }

    method OutputCommitPending(output: nat, commitSeq: Wire)
      requires Valid()
      modifies `state, outputs
      ensures Valid() && state == CommitPending(old(state), output, commitSeq)
    {
      if !secure {
        return;
      }
      var found, at := FindOutput(output);
      OnlyAt(state.outputs, output, at, Asked(commitSeq));
      state := CommitPending(state, output, commitSeq);
      if found == null || found.presented || found.secureCommitPending {
        return;
      }
      found.secureCommitSeq := commitSeq;
      found.secureCommitPending := true;
    }

    method OutputCommitFailed(output: nat, commitSeq: Wire)
      requires Valid()
      modifies `state, outputs
      ensures Valid() && state == CommitFailed(old(state), output, commitSeq)
    {
      hide Only;
      if !secure {
        return;
      }
      var found, at := FindOutput(output);
      OnlyAt(state.outputs, output, at, Failed(commitSeq));
      if found == null || !found.secureCommitPending || found.secureCommitSeq != commitSeq {
        return;
      }
      state := state.(outputs := Only(state.outputs, output, Failed(commitSeq)));
      found.secureCommitPending := false;
    }

    method OutputPresented(output: nat, commitSeq: Wire, presented: bool)
      requires Valid()
      modifies `lockedSent, `state, outputs
      ensures Valid() && state == Presented(old(state), output, commitSeq, presented)
    {
      hide Only;
      if !secure || !presented {
        return;
      }
      var found, at := FindOutput(output);
      if found == null || found.presented || !found.secureCommitPending {
        return;
      }
      if Precedes(commitSeq, found.secureCommitSeq) {
        return;
      }
      OnlyAt(state.outputs, output, at, Shown(commitSeq));
      state := state.(outputs := Only(state.outputs, output, Shown(commitSeq)));
      found.presented := true;
      found.secureCommitPending := false;
      MaybeSendLocked();
    }

    /** The frame handler; `outcome` is what committing the scene does. */
    method HandleFrame(output: nat, ghost commits: nat, commitSeq: Wire, outcome: Outcome)
      requires Valid() && commitSeq == ToWire(commits)
      modifies `state, outputs
      ensures Valid() && state == Frame(old(state), commits, output, outcome)
    {
      var next := Successor(commitSeq);
      OutputCommitPending(output, next);
      if outcome.Rejected? {
        OutputCommitFailed(output, next);
      }
    }
  }

  // ----- the list of outputs

  /** The entries have the states `views` and belong to different outputs. */
  ghost predicate Listed(entries: seq<LockOutput>, views: seq<OutputState>)
    reads entries
  {
    && |views| == |entries| && NoDup(entries) && OutputsDiffer(views)
    && forall i :: 0 <= i < |entries| ==> entries[i].View() == views[i]
  }

  lemma CutListed(entries: seq<LockOutput>, views: seq<OutputState>, at: nat)
    requires Listed(entries, views) && at < |entries|
    ensures Listed(entries[..at] + entries[at + 1..], views[..at] + views[at + 1..])
  {
    NoDupCut(entries, at);
    var r, v := entries[..at] + entries[at + 1..], views[..at] + views[at + 1..];
    forall i | 0 <= i < |r| ensures r[i].View() == v[i] {
      var j := if i < at then i else i + 1;
      assert r[i] == entries[j] && v[i] == views[j];
    }
  }

  lemma NoDupCut<T>(s: seq<T>, at: nat)
    requires NoDup(s) && at < |s|
    ensures NoDup(s[..at] + s[at + 1..])
  {
    var r := s[..at] + s[at + 1..];
    assert forall i :: 0 <= i < |r| ==> r[i] == s[if i < at then i else i + 1];
  }

  lemma {:induction false} DroppedAt(s: seq<OutputState>, at: nat)
    requires OutputsDiffer(s) && at < |s|
    ensures Dropped(s, s[at].output) == s[..at] + s[at + 1..] && OutputsDiffer(Dropped(s, s[at].output))
  {
    DroppedDiffer(s, s[at].output);
    if at == 0 {
      NothingDropped(s[1..], s[0].output);
    } else {
      DroppedAt(s[1..], at - 1);
    }
  }

  lemma {:induction false} NothingDropped(s: seq<OutputState>, output: nat)
    requires !Knows(s, output)
    ensures Dropped(s, output) == s
  {
    if s != [] {
      assert s[0].output != output;
      NothingDropped(s[1..], output);
    }
  }

  /** An event for one output changes at most the entry found for it. */
  lemma OnlyAt(s: seq<OutputState>, output: nat, at: nat, e: OutputEvent)
    requires OutputsDiffer(s) && (Knows(s, output) ==> at < |s| && s[at].output == output)
    ensures OutputsDiffer(Only(s, output, e))
    ensures Only(s, output, e) == if Knows(s, output) then s[at := s[at].After(e)] else s
  {
    var r := Only(s, output, e);
    assert forall i :: 0 <= i < |s| ==> r[i].output == s[i].output;
  }
}
