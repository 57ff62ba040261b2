/**
 * The minibrowser's navigation state (tools/minibrowser
 * navigation/BrowserNavigationState.kt).
 *
 * Every top-level route owns a back stack whose first entry is the route
 * itself. The navigator either switches between top-level routes or pushes
 * and pops routes on the current top-level route's stack; going back from
 * the base of a stack returns to the start route ("exit through home").
 * Routes (navigation keys) are compared by identity and modelled as numbers.
 */
module Navigation {
  import opened Wrappers

  type Route = nat

  /** The errors `goBack` raises: `error(...)` for a missing stack, `last()` on an empty one. */
  datatype NavError = StackNotFound(route: Route) | EmptyStack

  /** The top-level route and every back stack, as a value. */
  datatype NavState = NavState(top: Route, stacks: map<Route, seq<Route>>)

  /**
   * The shape the navigator keeps: the start and current routes own stacks,
   * each stack starts with its own route, and no other entry is a top-level
   * route.
   */
  predicate WellFormed(start: Route, st: NavState)
  {
    && start in st.stacks
    && st.top in st.stacks
    && forall k :: k in st.stacks ==>
         && |st.stacks[k]| >= 1
         && st.stacks[k][0] == k
         && forall i :: 1 <= i < |st.stacks[k]| ==> st.stacks[k][i] !in st.stacks
  }

  /** `navigate`: a top-level route is switched to; any other route is pushed on the current stack. */
  function Navigated(st: NavState, route: Route): (r: NavState)
    ensures r.stacks.Keys == st.stacks.Keys
    ensures route in st.stacks ==> r.top == route && r.stacks == st.stacks
    ensures route !in st.stacks ==> r.top == st.top
    ensures route !in st.stacks && st.top in st.stacks ==>
      r.stacks[st.top] == st.stacks[st.top] + [route]
    ensures forall k :: k in st.stacks && k != st.top ==> r.stacks[k] == st.stacks[k]
    ensures st.top !in st.stacks ==> r.stacks == st.stacks
  {
    if route in st.stacks then st.(top := route)
    else if st.top in st.stacks then st.(stacks := st.stacks[st.top := st.stacks[st.top] + [route]])
    else st
  }

  /**
   * `goBack`: at the base of the current stack the start route becomes
   * current and nothing is popped; otherwise the last entry is popped.
   * A missing or empty stack is an error.
   */
  function WentBack(start: Route, st: NavState): (r: Result<NavState, NavError>)
    ensures st.top !in st.stacks ==> r == Err(StackNotFound(st.top))
    ensures st.top in st.stacks && st.stacks[st.top] == [] ==> r == Err(EmptyStack)
    ensures r.Ok? ==> r.value.stacks.Keys == st.stacks.Keys
    ensures r.Ok? && r.value.top != st.top ==> r.value.top == start && r.value.stacks == st.stacks
    ensures r.Ok? && r.value.stacks != st.stacks ==>
      && r.value.top == st.top
      && r.value.stacks[st.top] + [st.stacks[st.top][|st.stacks[st.top]| - 1]] == st.stacks[st.top]
  {
    if st.top !in st.stacks then Err(StackNotFound(st.top))
    else
      var stack := st.stacks[st.top];
      if stack == [] then Err(EmptyStack)
      else if stack[|stack| - 1] == st.top then Ok(st.(top := start))
      else Ok(st.(stacks := st.stacks[st.top := stack[..|stack| - 1]]))
  }

  /** In a well-formed state the base of the current stack is reached exactly when only its root is left. */
  lemma AtBaseIffRootOnly(start: Route, st: NavState)
    requires WellFormed(start, st)
    ensures var stack := st.stacks[st.top];
      stack[|stack| - 1] == st.top <==> |stack| == 1
  {
    var stack := st.stacks[st.top];
    if |stack| > 1 {
      assert stack[|stack| - 1] !in st.stacks;
    }
  }

  /**
   * Navigating and going back keep the state well formed, and going back
   * never fails in a well-formed state.
   */
  lemma NavigationKeepsWellFormed(start: Route, st: NavState, route: Route)
    requires WellFormed(start, st)
    ensures WellFormed(start, Navigated(st, route))
    ensures WentBack(start, st).Ok? && WellFormed(start, WentBack(start, st).value)
  {
    NavigatedKeepsWellFormed(start, st, route);
    WentBackKeepsWellFormed(start, st);
  }

  lemma NavigatedKeepsWellFormed(start: Route, st: NavState, route: Route)
    requires WellFormed(start, st)
    ensures WellFormed(start, Navigated(st, route))
  {
    var n := Navigated(st, route);
    if route !in st.stacks {
      forall k | k in n.stacks
        ensures |n.stacks[k]| >= 1 && n.stacks[k][0] == k
        ensures forall i :: 1 <= i < |n.stacks[k]| ==> n.stacks[k][i] !in n.stacks
      {
        if k == st.top {
          assert n.stacks[k] == st.stacks[k] + [route];
          assert forall i :: 1 <= i < |n.stacks[k]| - 1 ==> n.stacks[k][i] == st.stacks[k][i];
        }
      }
    }
  }

  lemma WentBackKeepsWellFormed(start: Route, st: NavState)
    requires WellFormed(start, st)
    ensures WentBack(start, st).Ok? && WellFormed(start, WentBack(start, st).value)
  {
    AtBaseIffRootOnly(start, st);
    var b := WentBack(start, st).value;
    if b.stacks != st.stacks {
      var stack := st.stacks[st.top];
      assert b.stacks[st.top] == stack[..|stack| - 1];
    }
  }

  /** Pushing a route that is not top-level and going back restores the state exactly. */
  lemma NavigateThenGoBack(start: Route, st: NavState, route: Route)
    requires WellFormed(start, st) && route !in st.stacks
    ensures WentBack(start, Navigated(st, route)) == Ok(st)
  {
    var n := Navigated(st, route);
    var stack := n.stacks[st.top];
    assert stack[|stack| - 1] == route != st.top;
    assert stack[..|stack| - 1] == st.stacks[st.top];
    assert n.stacks[st.top := stack[..|stack| - 1]] == st.stacks;
  }

  /** Switching to another top-level route and going back lands on the start route with every stack intact. */
  lemma SwitchThenGoBack(start: Route, st: NavState, route: Route)
    requires WellFormed(start, st) && route in st.stacks && |st.stacks[route]| == 1
    ensures WentBack(start, Navigated(st, route)) == Ok(NavState(start, st.stacks))
  {
  }

  class BrowserNavigationState {
    const startRoute: Route
    var topLevelRoute: Route
    var backStacks: map<Route, seq<Route>>

    function State(): NavState
      reads this
    {
      NavState(topLevelRoute, backStacks)
    }

    predicate Valid()
      reads this
    {
      WellFormed(startRoute, State())
    }

    /**
     * `rememberBrowserNavigationState`: the start route is current and every
     * top-level route gets a stack holding just itself.
     */
    constructor (startRoute: Route, topLevelRoutes: set<Route>)
      requires startRoute in topLevelRoutes
      ensures Valid()
      ensures this.startRoute == startRoute && topLevelRoute == startRoute
      ensures backStacks.Keys == topLevelRoutes
      ensures forall k :: k in topLevelRoutes ==> backStacks[k] == [k]
    {
      this.startRoute := startRoute;
      topLevelRoute := startRoute;
      backStacks := map k | k in topLevelRoutes :: [k];
    }

    /**
     * `getTopLevelRoutesInUse`: the start route first, then the current
     * route if it is another one.
     */
    function RoutesInUse(): (routes: seq<Route>)
      reads this
      ensures 1 <= |routes| <= 2 && routes[0] == startRoute
      ensures topLevelRoute in routes
      ensures |routes| == 1 <==> topLevelRoute == startRoute
      ensures |routes| == 2 ==> routes[1] == topLevelRoute
    {
      if topLevelRoute == startRoute then [startRoute] else [startRoute, topLevelRoute]
    }
  }

  class BrowserNavigator {
    const state: BrowserNavigationState

    constructor (state: BrowserNavigationState)
      ensures this.state == state
    {
      this.state := state;
    }

    /** `navigate`. */
    method Navigate(route: Route)
      modifies state
      ensures state.State() == Navigated(old(state.State()), route)
    {
      if route in state.backStacks {
        state.topLevelRoute := route;
      } else if state.topLevelRoute in state.backStacks {
        var stack := state.backStacks[state.topLevelRoute];
        state.backStacks := state.backStacks[state.topLevelRoute := stack + [route]];
      }
    }

    /** `goBack`; on an error nothing changes. */
    method GoBack() returns (r: Result<(), NavError>)
      modifies state
      ensures WentBack(state.startRoute, old(state.State())).Err? ==>
        r == Err(WentBack(state.startRoute, old(state.State())).error) && state.State() == old(state.State())
      ensures WentBack(state.startRoute, old(state.State())).Ok? ==>
        r.Ok? && state.State() == WentBack(state.startRoute, old(state.State())).value
    {
      if state.topLevelRoute !in state.backStacks {
        return Err(StackNotFound(state.topLevelRoute));
      }
      var currentStack := state.backStacks[state.topLevelRoute];
      if currentStack == [] {
        return Err(EmptyStack);
      }
      var currentRoute := currentStack[|currentStack| - 1];
      if currentRoute == state.topLevelRoute {
        state.topLevelRoute := state.startRoute;
      } else {
        state.backStacks := state.backStacks[state.topLevelRoute := currentStack[..|currentStack| - 1]];
      }
      return Ok(());
    }
  }
}
