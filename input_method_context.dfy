/**
 * The Android input-method context of the WPE platform
 * (wpeview/src/main/cpp/Common/WPEInputMethodContextAndroid.cpp).
 *
 * Each view gets an input-method context, which Java code finds again
 * through a global map from views to contexts. Java may register focus
 * callbacks for a view before its context exists; they wait in a second
 * global map and are handed to the context when it is created. Pointers
 * (views, callbacks, user data) are modelled as numbers, 0 being null; a
 * callback invocation is recorded in the context's log instead of being
 * run, and so are the signals the context emits.
 */
module InputMethodContext {
  import opened Wrappers

  type Ptr = nat

  const NULL: Ptr := 0

  /** `FocusCallbacks`: callbacks waiting for a view's context. */
  datatype FocusCallbacks = FocusCallbacks(focusIn: Ptr, focusOut: Ptr, userData: Ptr)

  /** What a context does that the model records: callbacks run and signals emitted. */
  datatype Event =
    | CallbackRun(callback: Ptr, userData: Ptr)
    | Committed(text: string)
    | DeleteSurrounding(offset: int, count: nat)

  /** `get_preedit_string`'s outputs. */
  datatype Preedit = Preedit(text: string, underlines: seq<nat>, cursorOffset: nat)

  class WPEInputMethodContextAndroid {
    const view: Ptr
    var focusInCallback: Ptr
    var focusOutCallback: Ptr
    var callbackUserData: Ptr
    var events: seq<Event>

    constructor (view: Ptr)
      ensures this.view == view
      ensures focusInCallback == NULL && focusOutCallback == NULL && callbackUserData == NULL
      ensures events == []
    {
      this.view := view;
      focusInCallback := NULL;
      focusOutCallback := NULL;
      callbackUserData := NULL;
      events := [];
    }

    /** `get_preedit_string`: no text is ever being composed. */
    function PreeditString(): (p: Preedit)
      ensures p.text == "" && p.underlines == [] && p.cursorOffset == 0
    {
      Preedit("", [], 0)
    }

    /** `focus_in`: the focus-in callback runs if there is one. */
    method FocusIn()
      modifies this`events
      ensures focusInCallback == NULL ==> events == old(events)
      ensures focusInCallback != NULL ==> events == old(events) + [CallbackRun(focusInCallback, callbackUserData)]
    {
      if focusInCallback != NULL {
        events := events + [CallbackRun(focusInCallback, callbackUserData)];
      }
    }

    /** `focus_out`: the focus-out callback runs if there is one. */
    method FocusOut()
      modifies this`events
      ensures focusOutCallback == NULL ==> events == old(events)
      ensures focusOutCallback != NULL ==> events == old(events) + [CallbackRun(focusOutCallback, callbackUserData)]
    {
      if focusOutCallback != NULL {
        events := events + [CallbackRun(focusOutCallback, callbackUserData)];
      }
    }

    /** `set_focus_callbacks`: the three values replace the old ones. */
    method SetFocusCallbacks(focusIn: Ptr, focusOut: Ptr, userData: Ptr)
      modifies this`focusInCallback, this`focusOutCallback, this`callbackUserData
      ensures focusInCallback == focusIn && focusOutCallback == focusOut && callbackUserData == userData
    {
      focusInCallback := focusIn;
      focusOutCallback := focusOut;
      callbackUserData := userData;
    }

    /** `delete_surrounding`: the request is passed on as a signal. */
    method DeleteSurroundingText(offset: int, count: nat)
      requires count < 0x1_0000_0000
      modifies this`events
      ensures events == old(events) + [DeleteSurrounding(offset, count)]
    {
      events := events + [DeleteSurrounding(offset, count)];
    }
  }

  /** The two global maps, `s_contextMap` and `s_pendingCallbacks`. */
  class ContextRegistry {
    var contextMap: map<Ptr, WPEInputMethodContextAndroid>
    var pendingCallbacks: map<Ptr, FocusCallbacks>

    /**
     * Each context is filed under its own view, and callbacks wait only for
     * views that have no context yet.
     */
    predicate Valid()
      reads this, contextMap.Values
    {
      && (forall v :: v in contextMap ==> contextMap[v].view == v)
      && (forall v :: v in pendingCallbacks ==> v !in contextMap)
      && NULL !in pendingCallbacks
    }

    constructor ()
      ensures Valid() && contextMap == map[] && pendingCallbacks == map[]
    {
      contextMap := map[];
      pendingCallbacks := map[];
    }

    /** `get_for_view`: the context filed under the view, or null. */
    function GetForView(view: Ptr): (c: WPEInputMethodContextAndroid?)
      reads this
      ensures c != null <==> view in contextMap
      ensures c != null ==> c == contextMap[view]
    {
      if view in contextMap then contextMap[view] else null
    }

    /**
     * `new`: the context is filed under its view, replacing any older
     * one, and takes over the callbacks waiting for that view.
     */
    method New(view: Ptr) returns (c: WPEInputMethodContextAndroid)
      requires Valid()
      modifies this
      ensures Valid()
      ensures fresh(c) && c.view == view && c.events == []
      ensures contextMap == old(contextMap)[view := c]
      ensures pendingCallbacks == old(pendingCallbacks) - {view}
      ensures view in old(pendingCallbacks) ==>
        var p := old(pendingCallbacks)[view];
        c.focusInCallback == p.focusIn && c.focusOutCallback == p.focusOut && c.callbackUserData == p.userData
      ensures view !in old(pendingCallbacks) ==>
        c.focusInCallback == NULL && c.focusOutCallback == NULL && c.callbackUserData == NULL
    {
      c := new WPEInputMethodContextAndroid(view);
      contextMap := contextMap[view := c];
      if view in pendingCallbacks {
        var p := pendingCallbacks[view];
        c.focusInCallback := p.focusIn;
        c.focusOutCallback := p.focusOut;
        c.callbackUserData := p.userData;
        pendingCallbacks := pendingCallbacks - {view};
      }
    }

    /**
     * `set_focus_callbacks_for_view`: a null view is refused; a view with
     * a context has its callbacks replaced at once; otherwise they wait.
     */
    method SetFocusCallbacksForView(view: Ptr, focusIn: Ptr, focusOut: Ptr, userData: Ptr)
      requires Valid()
      modifies this, if view in contextMap then {contextMap[view]} else {}
      ensures Valid()
      ensures contextMap == old(contextMap)
      ensures view == NULL ==> pendingCallbacks == old(pendingCallbacks)
      ensures view != NULL && view in contextMap ==>
        && pendingCallbacks == old(pendingCallbacks)
        && contextMap[view].focusInCallback == focusIn
        && contextMap[view].focusOutCallback == focusOut
        && contextMap[view].callbackUserData == userData
        && contextMap[view].events == old(contextMap[view].events)
      ensures view != NULL && view !in contextMap ==>
        pendingCallbacks == old(pendingCallbacks)[view := FocusCallbacks(focusIn, focusOut, userData)]
    {
      if view == NULL {
        return;
      }
      var context := GetForView(view);
      if context != null {
        context.SetFocusCallbacks(focusIn, focusOut, userData);
        return;
      }
      pendingCallbacks := pendingCallbacks[view := FocusCallbacks(focusIn, focusOut, userData)];
    }

    /**
     * `commit_text`: the text is emitted as the `committed` signal. A
     * context that is not the one filed under its view is only logged as
     * an error; the signal is emitted all the same.
     */
    method CommitText(c: WPEInputMethodContextAndroid, text: string) returns (mismatch: bool)
      modifies c`events
      ensures mismatch <==> GetForView(c.view) != c
      ensures c.events == old(c.events) + [Committed(text)]
    {
      mismatch := GetForView(c.view) != c;
      c.events := c.events + [Committed(text)];
    }

    /**
     * `dispose` as written: the view's entry is erased whatever context it
     * holds, including a newer context created for the same view.
     */
    method DisposeAsWritten(c: WPEInputMethodContextAndroid)
      requires Valid()
      modifies this`contextMap
      ensures Valid()
      ensures c.view != NULL ==> contextMap == old(contextMap) - {c.view}
      ensures c.view == NULL ==> contextMap == old(contextMap)
    {
      if c.view != NULL {
        contextMap := contextMap - {c.view};
      }
    }

    /** `dispose`, erasing the view's entry only while it still holds this context. */
    method Dispose(c: WPEInputMethodContextAndroid)
      requires Valid()
      modifies this`contextMap
      ensures Valid()
      ensures c.view != NULL && c.view in old(contextMap) && old(contextMap)[c.view] == c ==>
        contextMap == old(contextMap) - {c.view}
      ensures forall v :: v in old(contextMap) && old(contextMap)[v] != c ==>
        v in contextMap && contextMap[v] == old(contextMap)[v]
      ensures contextMap.Keys <= old(contextMap).Keys
    {
      if c.view != NULL && c.view in contextMap && contextMap[c.view] == c {
        contextMap := contextMap - {c.view};
      }
    }
  }

  /**
   * When a view gets a second context before the first is disposed,
   * disposing the first as written leaves the live second context
   * unreachable from its view, while the corrected disposal keeps it.
   */
  method StaleDisposeLosesLiveContext() returns (asWritten: WPEInputMethodContextAndroid?, corrected: WPEInputMethodContextAndroid?, newer: WPEInputMethodContextAndroid)
    ensures newer.view == 7
    ensures asWritten == null
    ensures corrected == newer
  {
    var registry := new ContextRegistry();
    var older := registry.New(7);
    newer := registry.New(7);
    registry.DisposeAsWritten(older);
    asWritten := registry.GetForView(7);

    var fixedRegistry := new ContextRegistry();
    var olderAgain := fixedRegistry.New(7);
    var newerAgain := fixedRegistry.New(7);
    fixedRegistry.Dispose(olderAgain);
    corrected := fixedRegistry.GetForView(7);
    assert corrected == newerAgain;
    newer := newerAgain;
  }
}
