/**
 * The Android toplevel of the WPE platform
 * (wpeview/src/main/cpp/Common/WPEToplevelAndroid.cpp).
 *
 * A toplevel's state is a set of flags owned by the platform library
 * (`WPEToplevelState`, a bit mask: fullscreen 1, maximized 2, active 4),
 * modelled as the set of flags whose bits are on. The Android toplevel
 * starts out active and turns the fullscreen and maximized flags on and off
 * on request, reporting a state change only when the flags actually change.
 * Each request is modelled as a function from the current state to the
 * outcome: the new state, the state-changed report made (if any) and the
 * value returned.
 */
module Toplevel {
  import opened Wrappers

  datatype StateFlag = Fullscreen | Maximized | Active

  type State = set<StateFlag>

  /** The bit each flag has in `WPEToplevelState`. */
  function Bit(f: StateFlag): nat
  {
    match f
    case Fullscreen => 1
    case Maximized => 2
    case Active => 4
  }

  /** The mask of a state. */
  function Mask(state: State): (m: nat)
    ensures m < 8
    ensures forall f :: f in state <==> (m / Bit(f)) % 2 == 1
  {
    (if Fullscreen in state then 1 else 0)
    + (if Maximized in state then 2 else 0)
    + (if Active in state then 4 else 0)
  }

  /** States with the same mask are the same state. */
  lemma MaskInjective(s: State, t: State)
    ensures Mask(s) == Mask(t) ==> s == t
  {
    if Mask(s) == Mask(t) {
      assert forall f :: f in s <==> f in t;
    }
  }

  /** What a request leads to: the new state, the `wpe_toplevel_state_changed` report, the result. */
  datatype Outcome = Outcome(state: State, reported: Option<State>, result: bool)

  /**
   * A request that turns one flag on (`currentState | flag`) or off
   * (`currentState & ~flag`), reporting the new state only if it differs.
   */
  function SetFlag(state: State, flag: StateFlag, on: bool): (o: Outcome)
    ensures o.result
    ensures forall f :: f != flag ==> (f in o.state <==> f in state)
    ensures flag in o.state <==> on
    ensures o.reported.Some? <==> o.state != state
    ensures o.reported.Some? ==> o.reported.value == o.state
  {
    var newState := if on then state + {flag} else state - {flag};
    if newState != state then Outcome(newState, Some(newState), true)
    else Outcome(state, None, true)
  }

  /** `constructed`: the toplevel reports itself active, and only active. */
  function Constructed(): (o: Outcome)
    ensures o.state == {Active} && o.reported == Some({Active}) && Mask(o.state) == 4
  {
    Outcome({Active}, Some({Active}), true)
  }

  /** `set_fullscreen`. */
  function SetFullscreen(state: State, fullscreen: bool): (o: Outcome)
    ensures o.result
    ensures o.state - {Fullscreen} == state - {Fullscreen}
    ensures Fullscreen in o.state <==> fullscreen
    ensures o.reported.Some? <==> o.state != state
  {
    SetFlag(state, Fullscreen, fullscreen)
  }

  /** `set_maximized`. */
  function SetMaximized(state: State, maximized: bool): (o: Outcome)
    ensures o.result
    ensures o.state - {Maximized} == state - {Maximized}
    ensures Maximized in o.state <==> maximized
    ensures o.reported.Some? <==> o.state != state
  {
    SetFlag(state, Maximized, maximized)
  }

  /** `set_minimized`: accepted, and nothing changes. */
  function SetMinimized(state: State): (o: Outcome)
    ensures o.result && o.state == state && o.reported.None?
  {
    Outcome(state, None, true)
  }

  /** Asking twice for the same thing reports nothing the second time and changes nothing. */
  lemma {:induction false} SetFlagIdempotent(state: State, flag: StateFlag, on: bool)
    ensures var once := SetFlag(state, flag, on);
      SetFlag(once.state, flag, on) == Outcome(once.state, None, true)
  {
    var once := SetFlag(state, flag, on);
    var again := if on then once.state + {flag} else once.state - {flag};
    assert forall f :: f in again <==> f in once.state;
  }

  /** A report is made exactly when the request asks for the opposite of the flag's current value. */
  lemma {:induction false} ReportedIffToggled(state: State, flag: StateFlag, on: bool)
    ensures SetFlag(state, flag, on).reported.Some? <==> (flag in state) != on
  {
    var o := SetFlag(state, flag, on);
    if (flag in state) == on {
      assert forall f :: f in o.state <==> f in state;
    }
  }

  /** Requests on different flags commute. */
  lemma {:induction false} SetFlagsCommute(state: State, a: bool, b: bool)
    ensures SetMaximized(SetFullscreen(state, a).state, b).state
         == SetFullscreen(SetMaximized(state, b).state, a).state
  {
    var x := SetMaximized(SetFullscreen(state, a).state, b).state;
    var y := SetFullscreen(SetMaximized(state, b).state, a).state;
    assert forall f :: f in x <==> f in y;
  }
}
