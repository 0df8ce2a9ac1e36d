/** The recogniser as it runs: keyboards whose modifier records are updated in place by the handlers,
each of which is one `StandaloneSuper.Step`. */
module SuperRecogniser {
  import opened Seqs
  import opened StandaloneSuper

  class Keyboard {
    const id: nat
    var standaloneLeft: Modifier
    var standaloneRight: Modifier
    var releasePending: bool
    var release: Release

    constructor (id: nat)
      ensures this.id == id && View() == Fresh
    {
      this.id, standaloneLeft, standaloneRight := id, Idle, Idle;
      releasePending, release := false, Release(0, SuperLeft, 0);
    }

    ghost function View(): KeyboardState
      reads this
    {
      KeyboardState(standaloneLeft, standaloneRight, if releasePending then Some(release) else None)
    }

    function State(side: Side): Modifier
      reads this
    {
      if side.SuperLeft? then standaloneLeft else standaloneRight
    }

    method SetState(side: Side, m: Modifier)
      modifies `standaloneLeft, `standaloneRight
      ensures View() == old(View()).With(side, m)
    {
      if side.SuperLeft? {
        standaloneLeft := m;
      } else {
        standaloneRight := m;
      }
    }

    method CancelPendingRelease()
      modifies `releasePending
      ensures View() == old(View()).(pending := None)
    {
      releasePending := false;
    }

    method QueueRelease(r: Release)
      modifies `releasePending, `release
      ensures View() == old(View()).(pending := Some(r))
    {
      if releasePending {
        CancelPendingRelease();
      }
      release := r;
      releasePending := true;
    }

    method Disarm(side: Side)
      modifies `standaloneLeft, `standaloneRight
      ensures View() == old(View()).With(side, old(State(side)).Disarmed())
    {
      var m := State(side);
      if m.armed {
        SetState(side, m.(armed := false, action := None));
      }
    }

    method DisarmBoth()
      modifies `standaloneLeft, `standaloneRight
      ensures View() == old(View()).Disarmed()
    {
      Disarm(SuperLeft);
      Disarm(SuperRight);
    }
  }

  /** The keyboards of the list are different devices, and have the states `m`. */
  ghost predicate Listed(entries: seq<Keyboard>, m: map<nat, KeyboardState>)
    reads entries
  {
    && (forall i, j :: 0 <= i < j < |entries| ==> entries[i].id != entries[j].id)
    && m.Keys == (set e | e in entries :: e.id)
    && forall e :: e in entries ==> e.id in m && e.View() == m[e.id]
  }

  lemma DisarmedListed(entries: seq<Keyboard>, m: map<nat, KeyboardState>)
    requires forall i, j :: 0 <= i < j < |entries| ==> entries[i].id != entries[j].id
    requires m.Keys == (set e | e in entries :: e.id)
    requires forall j :: 0 <= j < |entries| ==> entries[j].id in m && entries[j].View() == m[entries[j].id].Disarmed()
    ensures Listed(entries, Disarmed(m))
  {
  }

  method DisarmAll(entries: seq<Keyboard>)
    requires NoDup(entries)
    modifies entries
    ensures forall i :: 0 <= i < |entries| ==> entries[i].View() == old(entries[i].View()).Disarmed()
  {
    for i := 0 to |entries|
      invariant forall j :: 0 <= j < i ==> entries[j].View() == old(entries[j].View()).Disarmed()
      invariant forall j :: i <= j < |entries| ==> entries[j].View() == old(entries[j].View())
    {
      entries[i].DisarmBoth();
    }
  }

  class Recogniser {
    var keyboards: seq<Keyboard>
    var bindings: Bindings
    var locked: bool
    var fallback: bool
    /** The actions executed so far. */
    var executed: seq<Action>
    /** The state this recogniser is in, seen as a value. */
    ghost var state: Input

    ghost predicate Valid()
      reads this, keyboards
    {
      && Listed(keyboards, state.keyboards)
      && state.bindings == bindings && state.locked == locked && state.fallback == fallback
      && state.executed == executed
    }

    constructor ()
      ensures Valid() && state == Start && keyboards == []
    {
      keyboards, bindings, locked, fallback, executed := [], Bindings(None, None), false, false, [];
      state := Start;
    }

    predicate ActionAllowed()
      reads `locked, `fallback
    {
      !locked && !fallback
    }

    method CancelArms()
      requires Valid()
      modifies `state, keyboards
      ensures Valid() && state == old(state).(keyboards := Disarmed(old(state.keyboards)))
    {
      DisarmAll(keyboards);
      DisarmedListed(keyboards, state.keyboards);
      state := state.(keyboards := Disarmed(state.keyboards));
    }

    method OtherModifierDown(kb: Keyboard, side: Side) returns (down: bool)
      requires Valid() && kb in keyboards
      ensures down == OtherDown(state.keyboards, Slot(kb.id, side))
    {
      for i := 0 to |keyboards|
        invariant forall j :: 0 <= j < i ==> !DownBeside(keyboards[j], Slot(kb.id, side))
      {
        var k := keyboards[i];
        if k.standaloneLeft.down && !(k == kb && side.SuperLeft?) {
          DownIsOther(k, SuperLeft, Slot(kb.id, side));
          return true;
        }
        if k.standaloneRight.down && !(k == kb && side.SuperRight?) {
          DownIsOther(k, SuperRight, Slot(kb.id, side));
          return true;
        }
      }
      if OtherDown(state.keyboards, Slot(kb.id, side)) {
        ghost var t: Slot :| t != Slot(kb.id, side) && t.keyboard in state.keyboards && state.keyboards[t.keyboard].Of(t.side).down;
        ghost var k :| k in keyboards && k.id == t.keyboard;
        assert DownBeside(k, Slot(kb.id, side));
      }
      return false;
    }

    lemma DownIsOther(k: Keyboard, side: Side, s: Slot)
      requires Valid() && k in keyboards && Slot(k.id, side) != s && k.State(side).down
      ensures OtherDown(state.keyboards, s)
    {
      assert state.keyboards[k.id].Of(side).down;
    }

    ghost predicate DownBeside(k: Keyboard, s: Slot)
      reads k
    {
      || (k.standaloneLeft.down && Slot(k.id, SuperLeft) != s)
      || (k.standaloneRight.down && Slot(k.id, SuperRight) != s)
    }

    method UpdateSlot(kb: Keyboard, side: Side, m: Modifier)
      requires Valid() && kb in keyboards
      modifies `state, kb`standaloneLeft, kb`standaloneRight
      ensures Valid()
      ensures state == old(state).(keyboards := old(state).keyboards[kb.id := old(state).keyboards[kb.id].With(side,
          m)])
    {
      kb.SetState(side, m);
      state := state.(keyboards := state.keyboards[kb.id := state.keyboards[kb.id].With(side, m)]);
    }

    method UpdatePending(kb: Keyboard, r: Release)
      requires Valid() && kb in keyboards
      modifies `state, kb`releasePending, kb`release
      ensures Valid()
      ensures state == old(state).(keyboards := old(state).keyboards[kb.id := old(state).keyboards[kb.id].(pending := Some(r))])
    {
      kb.QueueRelease(r);
      state := state.(keyboards := state.keyboards[kb.id := state.keyboards[kb.id].(pending := Some(r))]);
    }

    method HandleModifierPress(kb: Keyboard, side: Side, keycode: nat)
      requires Valid() && kb in keyboards
      modifies `state, keyboards
      ensures Valid() && state == SuperPressed(old(state), Slot(kb.id, side), keycode)
    {
      hide Disarmed;
      var m := kb.State(side);
      if m.down && m.keycode == keycode {
        return;
      }
      var chorded := OtherModifierDown(kb, side);
      CancelArms();
      var next := Modifier(true, false, keycode, None);
      var binding := bindings.Of(side);
      if !chorded && binding.Some? && ActionAllowed() {
        next := next.(armed := true, action := binding);
      }
      UpdateSlot(kb, side, next);
    }

    method HandleModifierRelease(kb: Keyboard, side: Side, keycode: nat)
      requires Valid() && kb in keyboards
      modifies `state, keyboards
      ensures Valid() && state == SuperReleased(old(state), Slot(kb.id, side), keycode)
    {
      var m := kb.State(side);
      if !m.down || m.keycode != keycode {
        return;
      }
      ghost var was := state.keyboards;
      ghost var idle := was[kb.id].With(side, Idle);
      UpdateSlot(kb, side, Idle);
      if m.armed && m.action.Some? && ActionAllowed() {
        UpdatePending(kb, Release(m.action.value, side, keycode));
        Overwritten(was, kb.id, idle, idle.(pending := Some(Release(m.action.value, side, keycode))));
      }
    }

    method HandleKey(kb: Keyboard, symbol: Symbol, keycode: nat, pressed: bool)
      requires Valid() && kb in keyboards
      modifies `state, keyboards
      ensures Valid() && state == Step(old(state), Key(kb.id, symbol, keycode, pressed))
    {
      match symbol
      case VtSwitch =>
        if pressed {
          CancelArms();
        }
      case Super(side) =>
        if pressed {
          HandleModifierPress(kb, side, keycode);
        } else {
          HandleModifierRelease(kb, side, keycode);
        }
      case OtherSymbol =>
        if pressed {
          CancelArms();
        }
    }

    method HandleButton()
      requires Valid()
      modifies `state, keyboards
      ensures Valid() && state == Step(old(state), PointerButton)
    {
      CancelArms();
    }

    method HandleAxis(delta: real, deltaDiscrete: int)
      requires Valid()
      modifies `state, keyboards
      ensures Valid() && state == Step(old(state), PointerAxis(delta != 0.0 || deltaDiscrete != 0))
    {
      if delta != 0.0 || deltaDiscrete != 0 {
        CancelArms();
      }
    }

    method HandleGestureBegin()
      requires Valid()
      modifies `state, keyboards
      ensures Valid() && state == Step(old(state), GestureBegan)
    {
      CancelArms();
    }

    method CancelRelease(kb: Keyboard)
      requires Valid() && kb in keyboards
      modifies `state, kb`releasePending
      ensures Valid()
      ensures state == old(state).(keyboards := old(state).keyboards[kb.id := old(state).keyboards[kb.id].(pending := None)])
    {
      kb.CancelPendingRelease();
      state := state.(keyboards := state.keyboards[kb.id := state.keyboards[kb.id].(pending := None)]);
    }

    method Execute(action: Action)
      requires Valid()
      modifies `executed, `state
      ensures Valid() && state == old(state).(executed := old(executed) + [action])
    {
      executed := executed + [action];
      state := state.(executed := executed);
    }

    method DispatchTimer(kb: Keyboard)
      requires Valid() && kb in keyboards
      modifies `executed, `state, kb`releasePending
      ensures Valid() && state == Step(old(state), TimerFired(kb.id))
    {
      assert kb.View() == state.keyboards[kb.id];
      if !kb.releasePending {
        return;
      }
      var r := kb.release;
      CancelRelease(kb);
      if ActionAllowed() {
        Execute(r.action);
      }
    }

    method ResetAll()
      requires Valid()
      modifies `state, keyboards
      ensures Valid() && state == AllReset(old(state))
    {
      ghost var was := state;
      for i := 0 to |keyboards|
        invariant state == was
        invariant forall j :: 0 <= j < i ==> keyboards[j].View() == Fresh
      {
        keyboards[i].CancelPendingRelease();
        keyboards[i].SetState(SuperLeft, Idle);
        keyboards[i].SetState(SuperRight, Idle);
      }
      state := AllReset(state);
    }

    method ApplyKeyboardPolicy(b: Bindings)
      requires Valid()
      modifies `bindings, `state, keyboards
      ensures Valid() && state == Step(old(state), PolicyApplied(b))
    {
      ResetAll();
      bindings := b;
      state := state.(bindings := b);
    }

    method HandleNewKeyboard(id: nat) returns (kb: Keyboard)
      requires Valid() && id !in state.keyboards
      modifies `keyboards, `state
      ensures Valid() && state == Step(old(state), KeyboardAdded(id)) && keyboards == old(keyboards) + [kb]
      ensures kb.id == id
    {
      kb := new Keyboard(id);
      keyboards := keyboards + [kb];
      state := state.(keyboards := state.keyboards[id := Fresh]);
    }

    method HandleKeyboardDestroy(at: nat)
      requires Valid() && at < |keyboards|
      modifies `keyboards, `state
      ensures Valid() && state == Step(old(state), KeyboardRemoved(old(keyboards[at]).id))
    {
      ghost var id := keyboards[at].id;
      assert forall i :: 0 <= i < |keyboards| && i != at ==> keyboards[i].id != id;
      keyboards := keyboards[..at] + keyboards[at + 1..];
      state := state.(keyboards := state.keyboards - {id});
    }

    method SetGuards(isLocked: bool, isFallback: bool)
      requires Valid()
      modifies `locked, `fallback, `state
      ensures Valid() && state == Step(old(state), Guarded(isLocked, isFallback))
    {
      locked, fallback := isLocked, isFallback;
      state := state.(locked := isLocked, fallback := isFallback);
    }
  }
}
