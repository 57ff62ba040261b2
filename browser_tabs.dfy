/**
 * The minibrowser's tab list (tools/minibrowser BrowserViewModel.kt).
 *
 * The browser state is an immutable value, a list of tabs and the id of the
 * selected tab, and every operation computes the next state from the
 * current one. Tabs are identified by their id; what else a tab holds (its
 * web view) is not modelled.
 */
module BrowserTabs {
  import opened Wrappers

  datatype Tab = Tab(id: string, webView: nat)

  datatype BrowserState = BrowserState(tabs: seq<Tab>, selectedTabId: Option<string>)

  /** `NoSuchElementException` from `first { }`. */
  datatype TabError = NoSuchElement(id: string)

  /** The initial state: no tabs, nothing selected. */
  const InitialState := BrowserState([], None)

  /** `indexOfFirst { it.id == id }`: the first position holding that id, or -1. */
  function IndexOfFirst(tabs: seq<Tab>, id: string): (k: int)
    ensures -1 <= k < |tabs|
    ensures k == -1 <==> forall i :: 0 <= i < |tabs| ==> tabs[i].id != id
    ensures k >= 0 ==> tabs[k].id == id && forall i :: 0 <= i < k ==> tabs[i].id != id
  {
    if tabs == [] then -1
    else if tabs[0].id == id then 0
    else
      var k := IndexOfFirst(tabs[1..], id);
      if k == -1 then -1 else k + 1
  }

  /** `find { it.id == id }`: the first tab with that id, or null. */
  function FindTab(tabs: seq<Tab>, id: string): (r: Option<Tab>)
    ensures r.None? <==> forall i :: 0 <= i < |tabs| ==> tabs[i].id != id
    ensures r.Some? ==> r.value == tabs[IndexOfFirst(tabs, id)] && r.value.id == id
  {
    var k := IndexOfFirst(tabs, id);
    if k == -1 then None else Some(tabs[k])
  }

  /** `getTab`: the first tab with that id, or an error when there is none. */
  function GetTab(tabs: seq<Tab>, id: string): (r: Result<Tab, TabError>)
    ensures r.Err? <==> FindTab(tabs, id).None?
    ensures r.Ok? ==> Some(r.value) == FindTab(tabs, id)
    ensures r.Err? ==> r.error == NoSuchElement(id)
  {
    match FindTab(tabs, id)
    case None => Err(NoSuchElement(id))
    case Some(t) => Ok(t)
  }

  /** `BrowserState.selectedTab`: the first tab whose id is the selected one, if any. */
  function SelectedTab(s: BrowserState): (r: Option<Tab>)
    ensures s.selectedTabId.None? ==> r.None?
    ensures s.selectedTabId.Some? ==> r == FindTab(s.tabs, s.selectedTabId.value)
  {
    if s.selectedTabId.None? then None else FindTab(s.tabs, s.selectedTabId.value)
  }

  /** `isSelected`. */
  function IsSelected(s: BrowserState, id: string): (b: bool)
    ensures b <==> s.selectedTabId == Some(id)
  {
    s.selectedTabId == Some(id)
  }

  /** `addTab`: the tab goes at the end, and is selected iff `select`. */
  function AddTab(s: BrowserState, tab: Tab, select: bool): (r: BrowserState)
    ensures r.tabs == s.tabs + [tab]
    ensures select ==> r.selectedTabId == Some(tab.id)
    ensures !select ==> r.selectedTabId == s.selectedTabId
  {
    BrowserState(s.tabs + [tab], if select then Some(tab.id) else s.selectedTabId)
  }

  /**
   * After adding a tab it can be found by its id: `findTab` gives the new
   * tab, unless an older tab already had that id, which it keeps giving.
   */
  lemma {:induction false} AddTabThenFind(s: BrowserState, tab: Tab, select: bool)
    ensures var r := AddTab(s, tab, select);
      && FindTab(r.tabs, tab.id).Some?
      && (FindTab(s.tabs, tab.id).None? ==> FindTab(r.tabs, tab.id) == Some(tab))
      && (FindTab(s.tabs, tab.id).Some? ==> FindTab(r.tabs, tab.id) == FindTab(s.tabs, tab.id))
      && (select ==> SelectedTab(r).Some? && SelectedTab(r).value.id == tab.id)
  {
    var r := AddTab(s, tab, select);
    assert r.tabs[|s.tabs|] == tab;
    if FindTab(s.tabs, tab.id).Some? {
      var k := IndexOfFirst(s.tabs, tab.id);
      IndexOfFirstPrefix(s.tabs, [tab], tab.id);
    } else {
      IndexOfFirstPrefix(s.tabs, [tab], tab.id);
    }
  }

  /** The first index in a list is the first index in any extension of it, if there is one. */
  lemma {:induction false} IndexOfFirstPrefix(a: seq<Tab>, b: seq<Tab>, id: string)
    ensures IndexOfFirst(a, id) >= 0 ==> IndexOfFirst(a + b, id) == IndexOfFirst(a, id)
    ensures IndexOfFirst(a, id) == -1 && IndexOfFirst(b, id) >= 0 ==>
      IndexOfFirst(a + b, id) == |a| + IndexOfFirst(b, id)
  {
    var ab := a + b;
    if IndexOfFirst(a, id) >= 0 {
      var k := IndexOfFirst(a, id);
      assert ab[k] == a[k];
      assert forall i :: 0 <= i < k ==> ab[i] == a[i];
    } else if IndexOfFirst(b, id) >= 0 {
      var k := IndexOfFirst(b, id);
      assert ab[|a| + k] == b[k];
      assert forall i :: 0 <= i < |a| ==> ab[i] == a[i];
      assert forall i :: |a| <= i < |a| + k ==> ab[i] == b[i - |a|];
    }
  }

  /** `selectTab`: only the selection changes. */
  function SelectTab(s: BrowserState, id: string): (r: BrowserState)
    ensures r.tabs == s.tabs && r.selectedTabId == Some(id)
  {
    s.(selectedTabId := Some(id))
  }

  /** `closeAllTabs`. */
  function CloseAllTabs(s: BrowserState): (r: BrowserState)
    ensures r.tabs == [] && r.selectedTabId.None?
  {
    BrowserState([], None)
  }

  /** `filter { it.id != id }`. */
  function Without(tabs: seq<Tab>, id: string): (r: seq<Tab>)
    ensures |r| <= |tabs|
  {
    if tabs == [] then []
    else (if tabs[0].id != id then [tabs[0]] else []) + Without(tabs[1..], id)
  }

  /** Filtering keeps exactly the tabs whose id differs. */
  lemma {:induction false} WithoutMembers(tabs: seq<Tab>, id: string, t: Tab)
    ensures t in Without(tabs, id) <==> t in tabs && t.id != id
  {
    if tabs != [] {
      WithoutMembers(tabs[1..], id, t);
      assert tabs == [tabs[0]] + tabs[1..];
    }
  }

  /** Filtering keeps the order: it distributes over concatenation. */
  lemma {:induction false} WithoutConcat(a: seq<Tab>, b: seq<Tab>, id: string)
    ensures Without(a + b, id) == Without(a, id) + Without(b, id)
  {
    if a == [] {
      assert a + b == b;
    } else {
      var head := if a[0].id != id then [a[0]] else [];
      var ab := a + b;
      assert ab[0] == a[0];
      assert ab[1..] == a[1..] + b;
      WithoutConcat(a[1..], b, id);
      calc {
        Without(ab, id);
        head + Without(a[1..] + b, id);
        head + (Without(a[1..], id) + Without(b, id));
        (head + Without(a[1..], id)) + Without(b, id);
      }
    }
  }

  /** Filtering out an id that no tab has changes nothing. */
  lemma {:induction false} WithoutAbsent(tabs: seq<Tab>, id: string)
    requires forall i :: 0 <= i < |tabs| ==> tabs[i].id != id
    ensures Without(tabs, id) == tabs
  {
    if tabs != [] {
      WithoutAbsent(tabs[1..], id);
    }
  }

  function Min(a: int, b: int): int
  {
    if a <= b then a else b
  }

  /**
   * `removeTab`: every tab with that id goes, the others keep their order.
   * Removing the selected id moves the selection to the tab now at the
   * removed tab's first position (the last tab if it was last), or to
   * nothing when no tab is left or no tab had that id.
   */
  function RemoveTab(s: BrowserState, id: string): (r: BrowserState)
    ensures r.tabs == Without(s.tabs, id)
    ensures s.selectedTabId != Some(id) ==> r.selectedTabId == s.selectedTabId
    ensures s.selectedTabId == Some(id) && r.tabs == [] ==> r.selectedTabId.None?
    ensures s.selectedTabId == Some(id) && IndexOfFirst(s.tabs, id) == -1 ==> r.selectedTabId.None?
  {
    var newTabs := Without(s.tabs, id);
    var newSelectedId :=
      if s.selectedTabId != Some(id) then s.selectedTabId
      else if newTabs == [] then None
      else
        var removedIndex := IndexOfFirst(s.tabs, id);
        var newIndex := Min(removedIndex, |newTabs| - 1);
        if 0 <= newIndex < |newTabs| then Some(newTabs[newIndex].id) else None;
    BrowserState(newTabs, newSelectedId)
  }

  /** The tabs before the first tab with `id` all survive its removal, in place. */
  lemma RemovalKeepsPrefix(tabs: seq<Tab>, id: string)
    requires IndexOfFirst(tabs, id) >= 0
    ensures var k := IndexOfFirst(tabs, id);
      Without(tabs, id) == tabs[..k] + Without(tabs[k + 1..], id)
  {
    var k := IndexOfFirst(tabs, id);
    var before, rest := tabs[..k], tabs[k..];
    assert tabs == before + rest;
    WithoutConcat(before, rest, id);
    assert forall i :: 0 <= i < |before| ==> before[i].id != id;
    WithoutAbsent(before, id);
    assert rest[0].id == id && rest[1..] == tabs[k + 1..];
    assert Without(rest, id) == Without(tabs[k + 1..], id);
  }

  /**
   * Removing the selected tab selects the first surviving tab that followed
   * it, or, when none followed, the tab just before it; never a tab with the
   * removed id.
   */
  lemma RemoveSelectedTabSelectsNeighbour(s: BrowserState, id: string)
    requires s.selectedTabId == Some(id) && IndexOfFirst(s.tabs, id) >= 0
    ensures var r := RemoveTab(s, id);
      var k := IndexOfFirst(s.tabs, id);
      var after := Without(s.tabs[k + 1..], id);
      && r.tabs == s.tabs[..k] + after
      && (after != [] ==> r.selectedTabId == Some(after[0].id))
      && (after == [] && k > 0 ==> r.selectedTabId == Some(s.tabs[k - 1].id))
      && (after == [] && k == 0 ==> r.selectedTabId.None?)
      && r.selectedTabId != Some(id)
  {
    var r := RemoveTab(s, id);
    var k := IndexOfFirst(s.tabs, id);
    var after := Without(s.tabs[k + 1..], id);
    RemovalKeepsPrefix(s.tabs, id);
    if r.tabs != [] {
      var j := Min(k, |r.tabs| - 1);
      if after != [] {
        assert j == k && r.tabs[k] == after[0];
      } else {
        assert j == k - 1 && r.tabs[j] == s.tabs[k - 1];
      }
      WithoutMembers(s.tabs, id, r.tabs[j]);
    }
  }

  /** The selection names a tab that exists, or nothing. */
  predicate SelectionIsValid(s: BrowserState)
  {
    s.selectedTabId.None? || SelectedTab(s).Some?
  }

  lemma TabInListIsFound(tabs: seq<Tab>, t: Tab)
    requires t in tabs
    ensures FindTab(tabs, t.id).Some?
  {
    var i :| 0 <= i < |tabs| && tabs[i] == t;
  }

  /** Adding, removing and closing all tabs keep the selection valid; the initial state has it. */
  lemma SelectionStaysValid(s: BrowserState, tab: Tab, select: bool, id: string)
    requires SelectionIsValid(s)
    ensures SelectionIsValid(InitialState)
    ensures SelectionIsValid(AddTab(s, tab, select))
    ensures SelectionIsValid(RemoveTab(s, id))
    ensures SelectionIsValid(CloseAllTabs(s))
  {
    var added := AddTab(s, tab, select);
    if select {
      TabInListIsFound(added.tabs, tab);
    } else if s.selectedTabId.Some? {
      var t := SelectedTab(s).value;
      assert t == s.tabs[IndexOfFirst(s.tabs, t.id)];
      TabInListIsFound(added.tabs, t);
    }
    var removed := RemoveTab(s, id);
    if removed.selectedTabId.Some? {
      if s.selectedTabId != Some(id) {
        var t := SelectedTab(s).value;
        assert t == s.tabs[IndexOfFirst(s.tabs, t.id)];
        WithoutMembers(s.tabs, id, t);
        TabInListIsFound(removed.tabs, t);
      } else {
        var k := IndexOfFirst(s.tabs, id);
        var j := Min(k, |removed.tabs| - 1);
        TabInListIsFound(removed.tabs, removed.tabs[j]);
      }
    }
  }
}
