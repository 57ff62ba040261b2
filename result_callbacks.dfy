/**
 * The `CallbackHolder` that the cookie manager and the website-data manager
 * hand to native code (com/wpe/wpeview/WPECookieManager.java and
 * com/wpe/wpe/WKWebsiteDataManager.java declare the same class). When native
 * code commits a result, the holder posts it to the application's callback,
 * if there is one, on the thread that created the holder. Posting is
 * modelled by the log of results posted.
 */
module ResultCallbacks {
  import opened Wrappers

  /** A result posted to a callback. */
  datatype Posted = Posted(callback: nat, result: bool)

  class CallbackHolder {
    /** The application's callback, by identity; null when none was given. */
    const callback: Option<nat>
    var posted: seq<Posted>

    constructor (callback: Option<nat>)
      ensures this.callback == callback && posted == []
    {
      this.callback := callback;
      posted := [];
    }

    /** `commitResult`: the result reaches the callback only if there is one. */
    method CommitResult(result: bool)
      modifies this
      ensures callback.None? ==> posted == old(posted)
      ensures callback.Some? ==> posted == old(posted) + [Posted(callback.value, result)]
    {
      if callback.Some? {
        posted := posted + [Posted(callback.value, result)];
      }
    }
  }
}
