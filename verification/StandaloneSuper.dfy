/** The recogniser of a Super key that is pressed and released on its own: its small flags, and what
they mean in terms of everything that has happened. */
module StandaloneSuper {
  import opened Seqs

  datatype Side = SuperLeft | SuperRight

  type Action = nat

  datatype Modifier = Modifier(down: bool, armed: bool, keycode: nat, action: Option<Action>)
  {
    function Disarmed(): Modifier {
      if armed then this.(armed := false, action := None) else this
    }
  }

  const Idle := Modifier(false, false, 0, None)

  datatype Release = Release(action: Action, side: Side, keycode: nat)

  datatype KeyboardState = KeyboardState(left: Modifier, right: Modifier, pending: Option<Release>)
  {
    function Of(side: Side): Modifier {
      if side.SuperLeft? then left else right
    }

    function With(side: Side, m: Modifier): KeyboardState {
      if side.SuperLeft? then this.(left := m) else this.(right := m)
    }

    function Disarmed(): KeyboardState {
      this.(left := left.Disarmed(), right := right.Disarmed())
    }
  }

  const Fresh := KeyboardState(Idle, Idle, None)

  datatype Bindings = Bindings(left: Option<Action>, right: Option<Action>)
  {
    function Of(side: Side): Option<Action> {
      if side.SuperLeft? then left else right
    }
  }

  datatype Slot = Slot(keyboard: nat, side: Side)

  datatype Symbol = Super(side: Side) | VtSwitch | OtherSymbol

  datatype Event =
    | KeyboardAdded(keyboard: nat)
    | KeyboardRemoved(keyboard: nat)
    | Key(keyboard: nat, symbol: Symbol, keycode: nat, pressed: bool)
    | PointerButton
    | PointerAxis(moved: bool)
    | GestureBegan
    | PolicyApplied(bindings: Bindings)
    | TimerFired(keyboard: nat)
    | Guarded(locked: bool, fallback: bool)

  /** `executed` lists the actions the recogniser has run. */
  datatype Input = Input(
    keyboards: map<nat, KeyboardState>, bindings: Bindings, locked: bool, fallback: bool, executed: seq<Action>)
  {
    predicate Allowed() {
      !locked && !fallback
    }

    ghost function Of(s: Slot): Modifier {
      if s.keyboard in keyboards then keyboards[s.keyboard].Of(s.side) else Idle
    }
  }

  ghost const Start: Input := Input(map[], Bindings(None, None), false, false, [])

  ghost function Disarmed(m: map<nat, KeyboardState>): map<nat, KeyboardState> {
    map k | k in m :: m[k].Disarmed()
  }

  ghost predicate OtherDown(m: map<nat, KeyboardState>, s: Slot) {
    exists t: Slot :: t != s && t.keyboard in m && m[t.keyboard].Of(t.side).down
  }

  ghost function SuperPressed(c: Input, s: Slot, keycode: nat): Input
    requires s.keyboard in c.keyboards
  {
    var m := c.Of(s);
    if m.down && m.keycode == keycode then c
    else
      var armed := !OtherDown(c.keyboards, s) && c.bindings.Of(s.side).Some? && c.Allowed();
      var next := Modifier(true, armed, keycode, if armed then c.bindings.Of(s.side) else None);
      var others := Disarmed(c.keyboards);
      c.(keyboards := others[s.keyboard := others[s.keyboard].With(s.side, next)])
  }

  ghost function SuperReleased(c: Input, s: Slot, keycode: nat): Input
    requires s.keyboard in c.keyboards
  {
    var m := c.Of(s);
    if !m.down || m.keycode != keycode then c
    else
      var kb := c.keyboards[s.keyboard].With(s.side, Idle);
      var queued := (if m.armed && m.action.Some? && c.Allowed() then
        kb.(pending := Some(Release(m.action.value, s.side, keycode))) else kb);
      c.(keyboards := c.keyboards[s.keyboard := queued])
  }

  ghost function TimerDispatched(c: Input, k: nat): Input
    requires k in c.keyboards
  {
    var kb := c.keyboards[k];
    var rest := c.(keyboards := c.keyboards[k := kb.(pending := None)]);
    if kb.pending.Some? && c.Allowed() then rest.(executed := c.executed + [kb.pending.value.action]) else rest
  }

  ghost function AllReset(c: Input): Input {
    c.(keyboards := map k | k in c.keyboards :: Fresh)
  }

  ghost function Step(c: Input, e: Event): Input {
    match e
    case KeyboardAdded(k) => c.(keyboards := c.keyboards[k := Fresh])
    case KeyboardRemoved(k) => c.(keyboards := c.keyboards - {k})
    case Key(k, symbol, keycode, pressed) =>
      if k !in c.keyboards then c
      else if symbol.Super? then
        if pressed then SuperPressed(c, Slot(k, symbol.side), keycode)
        else SuperReleased(c, Slot(k, symbol.side), keycode)
      else if pressed then c.(keyboards := Disarmed(c.keyboards))
      else c
    case PointerButton => c.(keyboards := Disarmed(c.keyboards))
    case PointerAxis(moved) => if moved then c.(keyboards := Disarmed(c.keyboards)) else c
    case GestureBegan => c.(keyboards := Disarmed(c.keyboards))
    case PolicyApplied(bindings) => AllReset(c).(bindings := bindings)
    case TimerFired(k) => if k in c.keyboards then TimerDispatched(c, k) else c
    case Guarded(locked, fallback) => c.(locked := locked, fallback := fallback)
  }

  ghost function Run(es: seq<Event>): Input
    decreases |es|
  {
    if es == [] then Start else Step(Run(es[..|es| - 1]), es[|es| - 1])
  }

  // ----- the history, without the flags

  ghost predicate Registered(es: seq<Event>, k: nat)
    decreases |es|
  {
    es != [] &&
    var p, e := es[..|es| - 1], es[|es| - 1];
    e == KeyboardAdded(k) || (e != KeyboardRemoved(k) && Registered(p, k))
  }

  /** Keys arrive from registered keyboards, and a keyboard is registered once at a time. */
  ghost predicate Feasible(es: seq<Event>) {
    forall i :: 0 <= i < |es| ==>
      && (es[i].Key? || es[i].TimerFired? || es[i].KeyboardRemoved? ==> Registered(es[..i], es[i].keyboard))
      && (es[i].KeyboardAdded? ==> !Registered(es[..i], es[i].keyboard))
  }

  ghost predicate Presses(e: Event, s: Slot) {
    e.Key? && e.pressed && e.keyboard == s.keyboard && e.symbol == Super(s.side)
  }

  ghost predicate Releases(e: Event, s: Slot) {
    e.Key? && !e.pressed && e.keyboard == s.keyboard && e.symbol == Super(s.side)
  }

  /** The key code that holds the modifier down. */
  ghost function Held(es: seq<Event>, s: Slot): Option<nat>
    decreases |es|
  {
    if es == [] then None
    else
      var p, e := es[..|es| - 1], es[|es| - 1];
      if Presses(e, s) then Some(e.keycode)
      else if Releases(e, s) && Held(p, s) == Some(e.keycode) then None
      else if e.PolicyApplied? || e == KeyboardRemoved(s.keyboard) then None
      else Held(p, s)
  }

  ghost function BindingsNow(es: seq<Event>): Bindings
    decreases |es|
  {
    if es == [] then Bindings(None, None)
    else if es[|es| - 1].PolicyApplied? then es[|es| - 1].bindings
    else BindingsNow(es[..|es| - 1])
  }

  ghost predicate AllowedNow(es: seq<Event>)
    decreases |es|
  {
    if es == [] then true
    else if es[|es| - 1].Guarded? then !es[|es| - 1].locked && !es[|es| - 1].fallback
    else AllowedNow(es[..|es| - 1])
  }

  /** A press that is not the repetition of a key already holding the modifier down. */
  ghost predicate Accepted(p: seq<Event>, e: Event, s: Slot) {
    Presses(e, s) && Held(p, s) != Some(e.keycode)
  }

  ghost predicate OtherHeld(es: seq<Event>, s: Slot) {
    exists t: Slot :: t != s && Held(es, t).Some?
  }

  /** After `p`, the press `e` may become a standalone Super: no other Super is held, it is bound, and
      desktop actions are allowed. */
  ghost predicate Arms(p: seq<Event>, e: Event, s: Slot) {
    && Accepted(p, e, s) && !OtherHeld(p, s)
    && BindingsNow(p).Of(s.side).Some? && AllowedNow(p)
  }

  /** After `p`, the event `e` ends any claim of `s` to be pressed on its own. */
  ghost predicate Interrupts(p: seq<Event>, e: Event, s: Slot) {
    || (e.Key? && e.pressed && !(e.symbol.Super? && Held(p, Slot(e.keyboard, e.symbol.side)) == Some(e.keycode)))
    || e.PointerButton? || (e.PointerAxis? && e.moved) || e.GestureBegan?
    || e.PolicyApplied? || e == KeyboardRemoved(s.keyboard)
    || (Releases(e, s) && Held(p, s) == Some(e.keycode))
  }

  ghost predicate ArmedSince(es: seq<Event>, s: Slot, i: int) {
    && 0 <= i < |es| && Arms(es[..i], es[i], s)
    && forall j :: i < j < |es| ==> !Interrupts(es[..j], es[j], s)
  }

  /** The whole history says that `s` is pressed on its own. */
  ghost predicate OnItsOwn(es: seq<Event>, s: Slot) {
    exists i :: ArmedSince(es, s, i)
  }

  // ----- the flags agree with the history

  lemma PrefixFeasible(es: seq<Event>)
    requires Feasible(es) && es != []
    ensures Feasible(es[..|es| - 1])
  {
    var p := es[..|es| - 1];
    assert forall i :: 0 <= i < |p| ==> p[..i] == es[..i] && p[i] == es[i];
  }

  lemma {:induction false} GuardsAgree(es: seq<Event>)
    ensures Run(es).bindings == BindingsNow(es) && (Run(es).Allowed() <==> AllowedNow(es))
    decreases |es|
  {
    if es != [] {
      GuardsAgree(es[..|es| - 1]);
    }
  }

  lemma {:induction false} RegisteredAgrees(es: seq<Event>, k: nat)
    ensures k in Run(es).keyboards <==> Registered(es, k)
    decreases |es|
  {
    if es != [] {
      RegisteredAgrees(es[..|es| - 1], k);
    }
  }

  ghost function HeldIn(c: Input, s: Slot): Option<nat> {
    if c.Of(s).down then Some(c.Of(s).keycode) else None
  }

  lemma {:induction false} HeldAgrees(es: seq<Event>, s: Slot)
    requires Feasible(es)
    ensures HeldIn(Run(es), s) == Held(es, s)
    decreases |es|
  {
    if es != [] {
      var p, e := es[..|es| - 1], es[|es| - 1];
      PrefixFeasible(es);
      HeldAgrees(p, s);
      if e.Key? || e.KeyboardAdded? {
        RegisteredAgrees(p, e.keyboard);
      }
      HeldStep(Run(p), e, s);
    }
  }

  lemma HeldStep(c: Input, e: Event, s: Slot)
    requires e.Key? ==> e.keyboard in c.keyboards
    requires e.KeyboardAdded? ==> e.keyboard !in c.keyboards
    ensures HeldIn(Step(c, e), s) ==
      if Presses(e, s) then Some(e.keycode)
      else if Releases(e, s) && HeldIn(c, s) == Some(e.keycode) then None
      else if e.PolicyApplied? || e == KeyboardRemoved(s.keyboard) then None
      else HeldIn(c, s)
  {
  }

  lemma OtherDownAgrees(es: seq<Event>, s: Slot)
    requires Feasible(es)
    ensures OtherDown(Run(es).keyboards, s) <==> OtherHeld(es, s)
  {
    var c := Run(es);
    if OtherDown(c.keyboards, s) {
      var t: Slot :| t != s && t.keyboard in c.keyboards && c.keyboards[t.keyboard].Of(t.side).down;
      HeldAgrees(es, t);
    }
    if OtherHeld(es, s) {
      var t: Slot :| t != s && Held(es, t).Some?;
      HeldAgrees(es, t);
      assert t.keyboard in c.keyboards && c.keyboards[t.keyboard].Of(t.side).down;
    }
  }

  /** One more event: the slot is on its own if the event arms it, or it was and is not interrupted. */
  lemma OnItsOwnStep(es: seq<Event>, s: Slot)
    requires es != []
    ensures var p, e := es[..|es| - 1], es[|es| - 1];
      OnItsOwn(es, s) <==> Arms(p, e, s) || (OnItsOwn(p, s) && !Interrupts(p, e, s))
  {
    var n := |es| - 1;
    var p, e := es[..n], es[n];
    assert forall i :: 0 <= i < n ==> p[..i] == es[..i];
    if Arms(p, e, s) {
      assert ArmedSince(es, s, n);
    }
    if OnItsOwn(p, s) && !Interrupts(p, e, s) {
      var i :| ArmedSince(p, s, i);
      assert ArmedSince(es, s, i);
    }
    if OnItsOwn(es, s) {
      var i :| ArmedSince(es, s, i);
      if i < n {
        assert ArmedSince(p, s, i);
      }
    }
  }

  ghost predicate ArmsIn(c: Input, e: Event, s: Slot) {
    && Presses(e, s) && HeldIn(c, s) != Some(e.keycode) && !OtherDown(c.keyboards, s)
    && c.bindings.Of(s.side).Some? && c.Allowed()
  }

  ghost predicate InterruptsIn(c: Input, e: Event, s: Slot) {
    || (e.Key? && e.pressed && !(e.symbol.Super? && HeldIn(c, Slot(e.keyboard, e.symbol.side)) == Some(e.keycode)))
    || e.PointerButton? || (e.PointerAxis? && e.moved) || e.GestureBegan?
    || e.PolicyApplied? || e == KeyboardRemoved(s.keyboard)
    || (Releases(e, s) && HeldIn(c, s) == Some(e.keycode))
  }

  /** What one event does to the flag of a slot. */
  lemma FlagStep(c: Input, e: Event, s: Slot)
    requires e.Key? ==> e.keyboard in c.keyboards
    requires e.KeyboardAdded? ==> e.keyboard !in c.keyboards
    ensures var d := Step(c, e);
      && (d.Of(s).armed <==> ArmsIn(c, e, s) || (c.Of(s).armed && !InterruptsIn(c, e, s)))
      && (d.Of(s).armed && !ArmsIn(c, e, s) ==> d.Of(s).action == c.Of(s).action)
      && (ArmsIn(c, e, s) ==> d.Of(s).action == c.bindings.Of(s.side))
  {
    hide OtherDown;

  }

  lemma ArmedStep(es: seq<Event>, s: Slot)
    requires Feasible(es) && es != []
    ensures var p, e := es[..|es| - 1], es[|es| - 1];
      && (Run(es).Of(s).armed <==> Arms(p, e, s) || (Run(p).Of(s).armed && !Interrupts(p, e, s)))
      && (Run(es).Of(s).armed && !Arms(p, e, s) ==> Run(es).Of(s).action == Run(p).Of(s).action)
      && (Arms(p, e, s) ==> Run(es).Of(s).action == BindingsNow(p).Of(s.side))
  {
    var p, e := es[..|es| - 1], es[|es| - 1];
    PrefixFeasible(es);
    GuardsAgree(p);
    HeldAgrees(p, s);
    OtherDownAgrees(p, s);
    if e.Key? || e.KeyboardAdded? {
      RegisteredAgrees(p, e.keyboard);
    }
    if e.Key? && e.symbol.Super? {
      HeldAgrees(p, Slot(e.keyboard, e.symbol.side));
    }
    FlagStep(Run(p), e, s);
    assert ArmsIn(Run(p), e, s) <==> Arms(p, e, s);
  }

  lemma ArmsInterrupts(p: seq<Event>, e: Event, s: Slot, t: Slot)
    requires Arms(p, e, s)
    ensures Interrupts(p, e, t)
  {
  }

  /** Main result.  A slot's `armed` flag is up exactly when the history says the key is pressed on its
      own, and its action is then the one bound at the press that armed it. */
  lemma {:induction false} ArmedIsOnItsOwn(es: seq<Event>, s: Slot)
    requires Feasible(es)
    ensures Run(es).Of(s).armed <==> OnItsOwn(es, s)
    ensures forall i :: ArmedSince(es, s, i) ==> Run(es).Of(s).action == BindingsNow(es[..i]).Of(s.side)
    decreases |es|
  {
    if es != [] {
      var n := |es| - 1;
      var p, e := es[..n], es[n];
      PrefixFeasible(es);
      ArmedIsOnItsOwn(p, s);
      OnItsOwnStep(es, s);
      ArmedStep(es, s);
      assert forall i :: 0 <= i < n ==> p[..i] == es[..i];
      forall i | ArmedSince(es, s, i)
        ensures Run(es).Of(s).action == BindingsNow(es[..i]).Of(s.side)
      {
        if i < n {
          assert ArmedSince(p, s, i);
          assert !Arms(p, e, s) by {
            if Arms(p, e, s) {
              ArmsInterrupts(p, e, s, s);
            }
          }
        }
      }
    }
  }

  /** At most one slot of all keyboards is armed at a time. */
  lemma AtMostOneArmed(es: seq<Event>, s: Slot, t: Slot)
    requires Feasible(es) && Run(es).Of(s).armed && Run(es).Of(t).armed
    ensures s == t
  {
    ArmedIsOnItsOwn(es, s);
    ArmedIsOnItsOwn(es, t);
    var i :| ArmedSince(es, s, i);
    var j :| ArmedSince(es, t, j);
    ArmsInterrupts(es[..i], es[i], s, t);
    ArmsInterrupts(es[..j], es[j], t, s);
    assert !(i < j) && !(j < i);
  }

  // ----- queued releases

  /** After `p`, the event `e` ends a press of Super on its own on keyboard `k`. */
  ghost predicate Queues(p: seq<Event>, e: Event, k: nat) {
    && e.Key? && !e.pressed && e.keyboard == k && e.symbol.Super?
    && Held(p, Slot(k, e.symbol.side)) == Some(e.keycode) && OnItsOwn(p, Slot(k, e.symbol.side)) && AllowedNow(p)
  }

  /** After `p`, the event `e` disposes of what was queued on keyboard `k`. */
  ghost predicate Disposes(p: seq<Event>, e: Event, k: nat) {
    e == TimerFired(k) || e.PolicyApplied? || e == KeyboardRemoved(k) || Queues(p, e, k)
  }

  ghost predicate QueuedSince(es: seq<Event>, k: nat, i: int) {
    && 0 <= i < |es| && Queues(es[..i], es[i], k)
    && forall j :: i < j < |es| ==> !Disposes(es[..j], es[j], k)
  }

  ghost predicate Queued(es: seq<Event>, k: nat) {
    exists i :: QueuedSince(es, k, i)
  }

  ghost function PendingIn(c: Input, k: nat): Option<Release> {
    if k in c.keyboards then c.keyboards[k].pending else None
  }

  lemma QueuedStep(es: seq<Event>, k: nat)
    requires es != []
    ensures var p, e := es[..|es| - 1], es[|es| - 1];
      Queued(es, k) <==> Queues(p, e, k) || (Queued(p, k) && !Disposes(p, e, k))
  {
    var n := |es| - 1;
    var p, e := es[..n], es[n];
    assert forall i :: 0 <= i < n ==> p[..i] == es[..i];
    if Queues(p, e, k) {
      assert QueuedSince(es, k, n);
    }
    if Queued(p, k) && !Disposes(p, e, k) {
      var i :| QueuedSince(p, k, i);
      assert QueuedSince(es, k, i);
    }
    if Queued(es, k) {
      var i :| QueuedSince(es, k, i);
      if i < n {
        assert QueuedSince(p, k, i);
      }
    }
  }

  /** What one event does to the pending release of a keyboard. */
  lemma PendingStep(es: seq<Event>, k: nat)
    requires Feasible(es) && es != []
    ensures var p, e := es[..|es| - 1], es[|es| - 1];
      && (PendingIn(Run(es), k).Some? <==> Queues(p, e, k) || (PendingIn(Run(p), k).Some? && !Disposes(p, e, k)))
      && (Queues(p, e, k) ==> Run(p).Of(Slot(k, e.symbol.side)).action == Some(PendingIn(Run(es), k).value.action))
      && (PendingIn(Run(es), k).Some? && !Queues(p, e, k) ==> PendingIn(Run(es), k) == PendingIn(Run(p), k))
  {
    var p, e := es[..|es| - 1], es[|es| - 1];
    PrefixFeasible(es);
    GuardsAgree(p);
    RegisteredAgrees(p, k);
    if e.Key? && e.symbol.Super? {
      var s := Slot(e.keyboard, e.symbol.side);
      HeldAgrees(p, s);
      ArmedIsOnItsOwn(p, s);
      RegisteredAgrees(p, e.keyboard);
      if Run(p).Of(s).armed {
        var i :| ArmedSince(p, s, i);
      }
    }
  }

  /** A release is queued on a keyboard exactly when a Super key was pressed and released on its own
      there, allowed both times, and nothing disposed of it since. */
  lemma {:induction false} PendingIsQueued(es: seq<Event>, k: nat)
    requires Feasible(es)
    ensures PendingIn(Run(es), k).Some? <==> Queued(es, k)
    decreases |es|
  {
    if es != [] {
      PrefixFeasible(es);
      PendingIsQueued(es[..|es| - 1], k);
      QueuedStep(es, k);
      PendingStep(es, k);
    }
  }

  lemma QueuedInPrefix(es: seq<Event>, k: nat, r: nat)
    requires QueuedSince(es, k, r) && r < |es| - 1
    ensures QueuedSince(es[..|es| - 1], k, r)
  {
    var p := es[..|es| - 1];
    assert forall j :: 0 <= j < |p| ==> p[..j] == es[..j];
  }

  /** What is queued is the action the slot carried when it was released. */
  lemma {:induction false} PendingAction(es: seq<Event>, k: nat, r: nat)
    requires Feasible(es) && QueuedSince(es, k, r)
    ensures PendingIn(Run(es), k).Some?
    ensures Run(es[..r]).Of(Slot(k, es[r].symbol.side)).action == Some(PendingIn(Run(es), k).value.action)
    decreases |es|
  {
    PendingIsQueued(es, k);
    if r == |es| - 1 {
      PendingStep(es, k);
    } else {
      var p := es[..|es| - 1];
      PrefixFeasible(es);
      QueuedInPrefix(es, k, r);
      assert p[..r] == es[..r] && p[r] == es[r];
      PendingAction(p, k, r);
      PendingStays(es, k, r);
    }
  }

  lemma PendingStays(es: seq<Event>, k: nat, r: nat)
    requires Feasible(es) && QueuedSince(es, k, r) && r < |es| - 1
    ensures PendingIn(Run(es), k).Some? && PendingIn(Run(es), k) == PendingIn(Run(es[..|es| - 1]), k)
  {
    PendingIsQueued(es, k);
    PendingStep(es, k);
  }

  /** Main result.  An event runs an action exactly when it is the timer of a keyboard on which a Super
      key was pressed and released on its own, undisturbed since, with desktop actions allowed. */
  lemma ActionsRun(es: seq<Event>, e: Event)
    requires Feasible(es + [e])
    ensures Step(Run(es), e).executed != Run(es).executed <==>
      e.TimerFired? && Queued(es, e.keyboard) && AllowedNow(es)
  {
    GuardsAgree(es);
    if e.TimerFired? {
      ExtendFeasible(es, e);
      RegisteredAgrees(es, e.keyboard);
      PendingIsQueued(es, e.keyboard);
      var c := Run(es);
      assert Step(c, e).executed != c.executed ==> |Step(c, e).executed| == |c.executed| + 1;
    }
  }

  lemma ExtendFeasible(es: seq<Event>, e: Event)
    requires Feasible(es + [e])
    ensures Feasible(es)
    ensures e.TimerFired? ==> Registered(es, e.keyboard)
  {
    var all := es + [e];
    PrefixFeasible(all);
    assert all[..|es|] == es && all[|es|] == e;
  }

  lemma AnyPrefixFeasible(es: seq<Event>, r: nat)
    requires Feasible(es) && r <= |es|
    ensures Feasible(es[..r])
  {
    var p := es[..r];
    assert forall i :: 0 <= i < r ==> p[..i] == es[..i] && p[i] == es[i];
  }

  lemma PendingWasBound(es: seq<Event>, k: nat, r: nat, i: nat)
    requires Feasible(es) && QueuedSince(es, k, r) && ArmedSince(es[..r], Slot(k, es[r].symbol.side), i)
    ensures PendingIn(Run(es), k).Some?
    ensures BindingsNow(es[..i]).Of(es[r].symbol.side) == Some(PendingIn(Run(es), k).value.action)
  {
    PendingAction(es, k, r);
    AnyPrefixFeasible(es, r);
    ArmedIsOnItsOwn(es[..r], Slot(k, es[r].symbol.side));
    assert es[..r][..i] == es[..i];
  }

  /** The action that runs is the one bound to the key when it was pressed: press at `i`, release at `r`. */
  lemma TheBoundActionRuns(es: seq<Event>, k: nat, r: nat, i: nat)
    requires Feasible(es + [TimerFired(k)]) && AllowedNow(es) && QueuedSince(es, k, r)
    requires ArmedSince(es[..r], Slot(k, es[r].symbol.side), i)
    ensures BindingsNow(es[..i]).Of(es[r].symbol.side).Some?
    ensures Step(Run(es), TimerFired(k)).executed
      == Run(es).executed + [BindingsNow(es[..i]).Of(es[r].symbol.side).value]
  {
    ExtendFeasible(es, TimerFired(k));
    GuardsAgree(es);
    RegisteredAgrees(es, k);
    PendingWasBound(es, k, r, i);
  }
}
