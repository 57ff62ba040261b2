/**
 * The Java half of the web view (wpeview org/wpewebkit/wpe/WKWebView.java).
 *
 * It holds the page state the native side reports (URI, title, history
 * flags), turns native callbacks into calls on the application's view and
 * chrome clients, and forwards a few requests to native code. Native calls
 * and client calls are modelled as logs, in call order; what a client
 * answers, and whether Android can parse a certificate, are parameters.
 */
module WebViewJava {
  import opened Wrappers
  import WebViewNative

  const LOAD_STARTED := 0
  const LOAD_REDIRECTED := 1
  const LOAD_COMMITTED := 2
  const LOAD_FINISHED := 3

  const WEBKIT_SCRIPT_DIALOG_ALERT := 0
  const WEBKIT_SCRIPT_DIALOG_CONFIRM := 1
  const WEBKIT_SCRIPT_DIALOG_PROMPT := 2
  const WEBKIT_SCRIPT_DIALOG_BEFORE_UNLOAD_CONFIRM := 3

  const WEBKIT_TLS_ERRORS_POLICY_IGNORE := 0
  const WEBKIT_TLS_ERRORS_POLICY_FAIL := 1

  /** The page size used for a headless view. */
  const HEADLESS_WIDTH := 1080
  const HEADLESS_HEIGHT := 2274

  /** A Java exception that escapes a callback. */
  datatype JavaException = ArrayIndexOutOfBounds(index: int)

  // ----- Header arrays -----

  /** The name and the value of the `i`-th pair of a flat header array. */
  function NameAt(flat: seq<string>, i: nat): string
    requires 2 * i + 1 < |flat|
  {
    flat[2 * i]
  }

  function ValueAt(flat: seq<string>, i: nat): string
    requires 2 * i + 1 < |flat|
  {
    flat[2 * i + 1]
  }

  /** No later pair of `flat` has the same name as pair `i`. */
  predicate IsLastWithName(flat: seq<string>, i: nat)
    requires |flat| % 2 == 0 && i < |flat| / 2
  {
    forall j :: i < j < |flat| / 2 ==> NameAt(flat, j) != NameAt(flat, i)
  }

  /** The map built by putting the pairs of a flat header array in order. */
  function MapOfFlat(flat: seq<string>): map<string, string>
    requires |flat| % 2 == 0
  {
    if flat == [] then map[]
    else MapOfFlat(flat[..|flat| - 2])[flat[|flat| - 2] := flat[|flat| - 1]]
  }

  /** The keys of the map are exactly the names of the array. */
  lemma {:induction false} MapOfFlatKeys(flat: seq<string>)
    requires |flat| % 2 == 0
    ensures forall i :: 0 <= i < |flat| / 2 ==> NameAt(flat, i) in MapOfFlat(flat)
    ensures forall k :: k in MapOfFlat(flat) ==> exists i :: 0 <= i < |flat| / 2 && NameAt(flat, i) == k
  {
    if flat != [] {
      var init := flat[..|flat| - 2];
      var last := |flat| / 2 - 1;
      MapOfFlatKeys(init);
      assert |init| / 2 == last;
      assert forall i :: 0 <= i < last ==> NameAt(flat, i) == NameAt(init, i);
      assert NameAt(flat, last) == flat[|flat| - 2];
      forall k | k in MapOfFlat(flat)
        ensures exists i :: 0 <= i < |flat| / 2 && NameAt(flat, i) == k
      {
        if k != NameAt(flat, last) {
          var i :| 0 <= i < last && NameAt(init, i) == k;
          assert NameAt(flat, i) == k;
        }
      }
    }
  }

  /** Each name maps to the value of its last pair: a later duplicate overwrites an earlier one. */
  lemma {:induction false} MapOfFlatLastWins(flat: seq<string>)
    requires |flat| % 2 == 0
    ensures forall i :: 0 <= i < |flat| / 2 && IsLastWithName(flat, i) ==>
      NameAt(flat, i) in MapOfFlat(flat) && MapOfFlat(flat)[NameAt(flat, i)] == ValueAt(flat, i)
  {
    if flat != [] {
      var init := flat[..|flat| - 2];
      var last := |flat| / 2 - 1;
      MapOfFlatLastWins(init);
      assert |init| / 2 == last;
      forall i | 0 <= i < |flat| / 2 && IsLastWithName(flat, i)
        ensures NameAt(flat, i) in MapOfFlat(flat) && MapOfFlat(flat)[NameAt(flat, i)] == ValueAt(flat, i)
      {
        if i < last {
          assert NameAt(flat, i) == NameAt(init, i) && ValueAt(flat, i) == ValueAt(init, i);
          assert NameAt(flat, last) != NameAt(flat, i);
          forall j | i < j < last
            ensures NameAt(init, j) != NameAt(init, i)
          {
            assert NameAt(flat, j) == NameAt(init, j);
          }
          assert IsLastWithName(init, i);
        }
      }
    }
  }

  /**
   * The header loop of `PageResourceRequest` and `onReceivedHttpError`:
   * `put(headers[i++], headers[i++])` until the array is used up. An array
   * of odd length makes the last value read fail, and the exception escapes.
   */
  method PairHeaders(headers: seq<string>) returns (r: Result<map<string, string>, JavaException>)
    ensures r.Ok? <==> |headers| % 2 == 0
    ensures r.Ok? ==> r.value == MapOfFlat(headers)
    ensures r.Err? ==> r.error == ArrayIndexOutOfBounds(|headers|)
  {
    var m := map[];
    var i := 0;
    while i < |headers|
      invariant 0 <= i <= |headers| && i % 2 == 0
      invariant m == MapOfFlat(headers[..i])
    {
      var name := headers[i];
      i := i + 1;
      if i == |headers| {
        return Err(ArrayIndexOutOfBounds(i));
      }
      var value := headers[i];
      i := i + 1;
      assert headers[..i][..i - 2] == headers[..i - 2];
      m := m[name := value];
    }
    assert headers[..i] == headers;
    return Ok(m);
  }

  /** The map of a header list: later duplicates overwrite earlier ones. */
  function MapOfHeaders(headers: seq<(string, string)>): map<string, string>
  {
    if headers == [] then map[]
    else MapOfHeaders(headers[..|headers| - 1])[headers[|headers| - 1].0 := headers[|headers| - 1].1]
  }

  /**
   * The header arrays the native side flattens always pair up again on the
   * Java side, into the map of the original header list.
   */
  lemma {:induction false} FlattenedHeadersPairBack(headers: seq<(string, string)>)
    ensures |WebViewNative.Flattened(headers)| % 2 == 0
    ensures MapOfFlat(WebViewNative.Flattened(headers)) == MapOfHeaders(headers)
  {
    if headers != [] {
      var init := headers[..|headers| - 1];
      FlattenedHeadersPairBack(init);
      var flat := WebViewNative.Flattened(headers);
      assert flat[..|flat| - 2] == WebViewNative.Flattened(init);
    }
  }

  // ----- SSL errors -----

  /** `android.net.http.SslError`: the failing URL and the set of error codes. */
  datatype SslError = SslError(url: string, firstError: int, errors: set<int>)

  /**
   * The wrapping of the native error codes into an `SslError`: the first
   * code creates it and the loop adds the others. With no codes at all,
   * reading the first one fails.
   */
  method WrapSslErrors(failingUri: string, sslErrors: seq<int>) returns (r: Result<SslError, JavaException>)
    ensures r.Ok? <==> |sslErrors| >= 1
    ensures r.Ok? ==> r.value.url == failingUri && r.value.firstError == sslErrors[0]
    ensures r.Ok? ==> forall code :: code in r.value.errors <==> code in sslErrors
    ensures r.Err? ==> r.error == ArrayIndexOutOfBounds(0)
  {
    if |sslErrors| == 0 {
      return Err(ArrayIndexOutOfBounds(0));
    }
    var errors := {sslErrors[0]};
    var i := 1;
    while i < |sslErrors|
      invariant 1 <= i <= |sslErrors|
      invariant forall code :: code in errors <==> code in sslErrors[..i]
    {
      assert sslErrors[..i + 1] == sslErrors[..i] + [sslErrors[i]];
      errors := errors + {sslErrors[i]};
      i := i + 1;
    }
    assert sslErrors[..i] == sslErrors;
    return Ok(SslError(failingUri, sslErrors[0], errors));
  }

  /** Whatever TLS errors the native side reports, the Java side can wrap them. */
  lemma NativeSslErrorsNeverEmpty(flags: bv32)
    ensures |WebViewNative.SslErrorCodes(flags)| >= 1
  {
  }

  /** The native calls the Java view makes. */
  datatype NativeCall =
    | NativeInit(width: int, height: int, headless: bool)
    | NativeClose(ptr: nat)
    | NativeDestroy(ptr: nat)
    | NativeSetTLSErrorsPolicy(ptr: nat, policy: int)
    | NativeTriggerSslErrorHandler(handlerPtr: nat, acceptCertificate: bool)

  /** `WPEResourceRequest` and `WPEResourceResponse` as handed to the view client. */
  datatype ResourceRequest = ResourceRequest(uri: string, httpMethod: string, headers: map<string, string>)
  datatype ResourceResponse = ResourceResponse(mimeType: string, statusCode: int, headers: map<string, string>)

  /** The calls the Java view makes on the application's clients, and the dialogs it shows. */
  datatype ClientCall =
    | PageStarted(uri: string)
    | PageFinished(uri: string)
    | ReceivedTitle(title: string)
    | JsDialog(dialogType: int, url: string, message: string, defaultText: string, dialogPtr: nat)
    | DialogShown(dialogType: int, hasNegativeButton: bool, hasTextField: bool, dialogPtr: nat)
    | ReceivedHttpError(request: ResourceRequest, response: ResourceResponse)
    | ReceivedSslError(error: SslError, handlerPtr: nat)

  function CloseCalls(calls: seq<NativeCall>): nat
  {
    if calls == [] then 0
    else CloseCalls(calls[..|calls| - 1]) + (if calls[|calls| - 1].NativeClose? then 1 else 0)
  }

  function DestroyCalls(calls: seq<NativeCall>): nat
  {
    if calls == [] then 0
    else DestroyCalls(calls[..|calls| - 1]) + (if calls[|calls| - 1].NativeDestroy? then 1 else 0)
  }

  lemma CallCountsAppend(calls: seq<NativeCall>, c: NativeCall)
    ensures CloseCalls(calls + [c]) == CloseCalls(calls) + (if c.NativeClose? then 1 else 0)
    ensures DestroyCalls(calls + [c]) == DestroyCalls(calls) + (if c.NativeDestroy? then 1 else 0)
  {
    assert (calls + [c])[..|calls|] == calls;
  }

  /** `SslErrorHandlerImpl`: the Java handle on one native SSL error handler. */
  class SslErrorHandlerImpl {
    var nativeHandlerPtr: nat
    var nativeCalls: seq<NativeCall>

    /** The native handler is triggered at most once, and its pointer is dropped when it is. */
    predicate Valid()
      reads this
    {
      |nativeCalls| <= 1 && (|nativeCalls| == 1 ==> nativeHandlerPtr == 0)
    }

    constructor (nativeHandlerPtr: nat)
      ensures Valid()
      ensures this.nativeHandlerPtr == nativeHandlerPtr && nativeCalls == []
    {
      this.nativeHandlerPtr := nativeHandlerPtr;
      nativeCalls := [];
    }

    /** `triggerSslErrorHandler`: hands the decision to native code once, then forgets the pointer. */
    method Trigger(acceptCertificate: bool)
      requires Valid()
      modifies this
      ensures Valid()
      ensures nativeHandlerPtr == 0
      ensures old(nativeHandlerPtr) == 0 ==> nativeCalls == old(nativeCalls)
      ensures old(nativeHandlerPtr) != 0 ==>
        nativeCalls == old(nativeCalls) + [NativeTriggerSslErrorHandler(old(nativeHandlerPtr), acceptCertificate)]
    {
      if nativeHandlerPtr != 0 {
        nativeCalls := nativeCalls + [NativeTriggerSslErrorHandler(nativeHandlerPtr, acceptCertificate)];
        nativeHandlerPtr := 0;
      }
    }

    /** `proceed`: accept the certificate. */
    method Proceed()
      requires Valid()
      modifies this
      ensures Valid()
      ensures nativeHandlerPtr == 0
      ensures old(nativeHandlerPtr) == 0 ==> nativeCalls == old(nativeCalls)
      ensures old(nativeHandlerPtr) != 0 ==> nativeCalls == old(nativeCalls) + [NativeTriggerSslErrorHandler(old(nativeHandlerPtr), true)]
    {
      Trigger(true);
    }

    /** `cancel` (also run on finalization): reject the certificate. */
    method Cancel()
      requires Valid()
      modifies this
      ensures Valid()
      ensures nativeHandlerPtr == 0
      ensures old(nativeHandlerPtr) == 0 ==> nativeCalls == old(nativeCalls)
      ensures old(nativeHandlerPtr) != 0 ==> nativeCalls == old(nativeCalls) + [NativeTriggerSslErrorHandler(old(nativeHandlerPtr), false)]
    {
      Trigger(false);
    }
  }

  class WKWebView {
    var nativePtr: nat
    /** The view client and the chrome client, by identity; null when unset. */
    var viewClient: Option<nat>
    var chromeClient: Option<nat>
    var uri: string
    var originalUrl: string
    var title: string
    var isClosed: bool
    var canGoBack: bool
    var canGoForward: bool
    var nativeCalls: seq<NativeCall>
    var clientCalls: seq<ClientCall>

    /**
     * Native close has been called exactly when the view is closed, and
     * native destroy at most once, after which the native pointer is 0.
     */
    predicate Valid()
      reads this
    {
      CloseCalls(nativeCalls) == (if isClosed then 1 else 0)
      && DestroyCalls(nativeCalls) <= 1
      && (DestroyCalls(nativeCalls) == 1 ==> nativePtr == 0 && isClosed)
    }

    /**
     * The constructor: a headless view uses the fixed headless size,
     * otherwise the measured size; `nativePtr` is what `nativeInit` returns.
     * The default view client `defaultViewClient` is installed and there is
     * no chrome client.
     */
    constructor (headless: bool, measuredWidth: int, measuredHeight: int, nativePtr: nat, defaultViewClient: nat)
      ensures Valid()
      ensures this.nativePtr == nativePtr
      ensures nativeCalls == [NativeInit(if headless then HEADLESS_WIDTH else measuredWidth,
                                         if headless then HEADLESS_HEIGHT else measuredHeight, headless)]
      ensures viewClient == Some(defaultViewClient) && chromeClient == None
      ensures uri == "about:blank" && originalUrl == "about:blank" && title == "about:blank"
      ensures !isClosed && canGoBack && canGoForward && clientCalls == []
    {
      var width := if headless then HEADLESS_WIDTH else measuredWidth;
      var height := if headless then HEADLESS_HEIGHT else measuredHeight;
      this.nativePtr := nativePtr;
      viewClient := Some(defaultViewClient);
      chromeClient := None;
      uri := "about:blank";
      originalUrl := "about:blank";
      title := "about:blank";
      isClosed := false;
      canGoBack := true;
      canGoForward := true;
      nativeCalls := [NativeInit(width, height, headless)];
      clientCalls := [];
      assert [NativeInit(width, height, headless)][..0] == [];
    }

    /** `close`: native close is called the first time only. */
    method Close()
      requires Valid()
      modifies this`isClosed, this`nativeCalls
      ensures Valid()
      ensures isClosed
      ensures old(isClosed) ==> nativeCalls == old(nativeCalls)
      ensures !old(isClosed) ==> nativeCalls == old(nativeCalls) + [NativeClose(nativePtr)]
    {
      if !isClosed {
        isClosed := true;
        CallCountsAppend(nativeCalls, NativeClose(nativePtr));
        nativeCalls := nativeCalls + [NativeClose(nativePtr)];
      }
    }

    /**
     * `destroy`: both clients are dropped so that no callback follows; a
     * live native view is closed (if not yet) and destroyed, and the native
     * pointer is cleared, so a second destroy calls nothing native.
     */
    method Destroy()
      requires Valid()
      modifies this`viewClient, this`chromeClient, this`isClosed, this`nativePtr, this`nativeCalls
      ensures Valid()
      ensures viewClient.None? && chromeClient.None? && nativePtr == 0
      ensures old(nativePtr) == 0 ==> nativeCalls == old(nativeCalls) && isClosed == old(isClosed)
      ensures old(nativePtr) != 0 ==> isClosed
      ensures old(nativePtr) != 0 && old(isClosed) ==> nativeCalls == old(nativeCalls) + [NativeDestroy(old(nativePtr))]
      ensures old(nativePtr) != 0 && !old(isClosed) ==>
        nativeCalls == old(nativeCalls) + [NativeClose(old(nativePtr)), NativeDestroy(old(nativePtr))]
    {
      chromeClient := None;
      viewClient := None;
      if nativePtr != 0 {
        Close();
        CallCountsAppend(nativeCalls, NativeDestroy(nativePtr));
        nativeCalls := nativeCalls + [NativeDestroy(nativePtr)];
        nativePtr := 0;
      }
    }

    /** `setTLSErrorsPolicy`: only the two policies WebKit defines are forwarded. */
    method SetTLSErrorsPolicy(policy: int)
      requires Valid()
      modifies this`nativeCalls
      ensures Valid()
      ensures policy == WEBKIT_TLS_ERRORS_POLICY_IGNORE || policy == WEBKIT_TLS_ERRORS_POLICY_FAIL ==>
        nativeCalls == old(nativeCalls) + [NativeSetTLSErrorsPolicy(nativePtr, policy)]
      ensures !(policy == WEBKIT_TLS_ERRORS_POLICY_IGNORE || policy == WEBKIT_TLS_ERRORS_POLICY_FAIL) ==>
        nativeCalls == old(nativeCalls)
    {
      if policy == WEBKIT_TLS_ERRORS_POLICY_IGNORE || policy == WEBKIT_TLS_ERRORS_POLICY_FAIL {
        CallCountsAppend(nativeCalls, NativeSetTLSErrorsPolicy(nativePtr, policy));
        nativeCalls := nativeCalls + [NativeSetTLSErrorsPolicy(nativePtr, policy)];
      }
    }

    /** `onLoadChanged`: the view client hears of starts and finishes, with the current URI. */
    method OnLoadChanged(loadEvent: int)
      requires Valid()
      modifies this`clientCalls
      ensures Valid()
      ensures loadEvent == LOAD_STARTED && viewClient.Some? ==> clientCalls == old(clientCalls) + [PageStarted(uri)]
      ensures loadEvent == LOAD_FINISHED && viewClient.Some? ==> clientCalls == old(clientCalls) + [PageFinished(uri)]
      ensures !((loadEvent == LOAD_STARTED || loadEvent == LOAD_FINISHED) && viewClient.Some?) ==> clientCalls == old(clientCalls)
    {
      if loadEvent == LOAD_STARTED {
        if viewClient.Some? {
          clientCalls := clientCalls + [PageStarted(uri)];
        }
      } else if loadEvent == LOAD_FINISHED {
        if viewClient.Some? {
          clientCalls := clientCalls + [PageFinished(uri)];
        }
      }
    }

    /** `onUriChanged`: the URI is stored. */
    method OnUriChanged(uri: string)
      requires Valid()
      modifies this`uri
      ensures Valid()
      ensures this.uri == uri
    {
      this.uri := uri;
    }

    /** `onTitleChanged`: title and history flags are stored as given; the chrome client hears of the title. */
    method OnTitleChanged(title: string, canGoBack: bool, canGoForward: bool)
      requires Valid()
      modifies this`title, this`canGoBack, this`canGoForward, this`clientCalls
      ensures Valid()
      ensures this.title == title && this.canGoBack == canGoBack && this.canGoForward == canGoForward
      ensures chromeClient.Some? ==> clientCalls == old(clientCalls) + [ReceivedTitle(title)]
      ensures chromeClient.None? ==> clientCalls == old(clientCalls)
    {
      this.title := title;
      this.canGoBack := canGoBack;
      this.canGoForward := canGoForward;
      if chromeClient.Some? {
        clientCalls := clientCalls + [ReceivedTitle(title)];
      }
    }

    /**
     * `onScriptDialog`, with the chrome client of the hosting `WPEView`
     * (`viewChromeClient`) and what that client answers (`clientHandles`).
     * Without a client WebKit's default applies. Otherwise a known dialog
     * type is offered to the client, and if the client does not handle it a
     * dialog is shown: with a cancel button unless it is an alert, and with
     * a text field for a prompt.
     */
    method OnScriptDialog(dialogPtr: nat, dialogType: int, url: string, message: string, defaultText: string,
                          viewChromeClient: Option<nat>, clientHandles: bool)
      returns (handled: bool)
      requires Valid()
      modifies this`clientCalls
      ensures Valid()
      ensures handled <==> viewChromeClient.Some?
      ensures viewChromeClient.None? ==> clientCalls == old(clientCalls)
      ensures viewChromeClient.Some? ==>
        var known := 0 <= dialogType <= 3;
        clientCalls == old(clientCalls)
                       + (if known then [JsDialog(dialogType, url, message, defaultText, dialogPtr)] else [])
                       + (if known && clientHandles then []
                          else [DialogShown(dialogType, dialogType != WEBKIT_SCRIPT_DIALOG_ALERT,
                                            dialogType == WEBKIT_SCRIPT_DIALOG_PROMPT, dialogPtr)])
    {
      if viewChromeClient.None? {
        return false;
      }
      var clientHandledDialog := false;
      var offered: seq<ClientCall> := [];
      if dialogType == WEBKIT_SCRIPT_DIALOG_ALERT || dialogType == WEBKIT_SCRIPT_DIALOG_CONFIRM
         || dialogType == WEBKIT_SCRIPT_DIALOG_PROMPT || dialogType == WEBKIT_SCRIPT_DIALOG_BEFORE_UNLOAD_CONFIRM {
        offered := [JsDialog(dialogType, url, message, defaultText, dialogPtr)];
        clientHandledDialog := clientHandles;
      }
      clientCalls := clientCalls + offered;
      if !clientHandledDialog {
        clientCalls := clientCalls + [DialogShown(dialogType, dialogType != WEBKIT_SCRIPT_DIALOG_ALERT,
                                                  dialogType == WEBKIT_SCRIPT_DIALOG_PROMPT, dialogPtr)];
      }
      return true;
    }

    /**
     * `onReceivedHttpError`: with a view client, both header arrays are
     * paired into maps and the client gets the request and the response. An
     * odd-length array makes the pairing throw, and nothing reaches the client.
     */
    method OnReceivedHttpError(requestUri: string, requestMethod: string, requestHeaders: seq<string>,
                               responseMimeType: string, responseStatusCode: int, responseHeaders: seq<string>)
      returns (thrown: Option<JavaException>)
      requires Valid()
      modifies this`clientCalls
      ensures Valid()
      ensures viewClient.None? ==> thrown.None? && clientCalls == old(clientCalls)
      ensures viewClient.Some? ==>
        (thrown.None? <==> |requestHeaders| % 2 == 0 && |responseHeaders| % 2 == 0)
      ensures viewClient.Some? && thrown.None? ==>
        clientCalls == old(clientCalls) + [ReceivedHttpError(ResourceRequest(requestUri, requestMethod, MapOfFlat(requestHeaders)),
                                                             ResourceResponse(responseMimeType, responseStatusCode, MapOfFlat(responseHeaders)))]
      ensures thrown.Some? ==> clientCalls == old(clientCalls)
    {
      if viewClient.None? {
        return None;
      }
      var request := PairHeaders(requestHeaders);
      if request.Err? {
        return Some(request.error);
      }
      var response := PairHeaders(responseHeaders);
      if response.Err? {
        return Some(response.error);
      }
      clientCalls := clientCalls + [ReceivedHttpError(ResourceRequest(requestUri, requestMethod, request.value),
                                                      ResourceResponse(responseMimeType, responseStatusCode, response.value))];
      return None;
    }

    /**
     * `onReceivedSslError`: with a view client and a certificate Android can
     * parse (`certificateParses`), the errors are wrapped and offered to the
     * client with a fresh handler for `nativeHandlerPtr`. If the client
     * throws (`clientThrows`), the certificate is rejected at once.
     */
    method OnReceivedSslError(failingUri: string, certificatePem: string, sslErrors: seq<int>, nativeHandlerPtr: nat,
                              certificateParses: bool, clientThrows: bool)
      returns (handled: bool, handler: SslErrorHandlerImpl?)
      requires Valid()
      modifies this`clientCalls
      ensures Valid()
      ensures handled <==> viewClient.Some? && certificateParses && |sslErrors| >= 1
      ensures !handled ==> handler == null && clientCalls == old(clientCalls)
      ensures handled ==>
        handler != null && fresh(handler) && handler.Valid() && handler.nativeHandlerPtr == (if clientThrows then 0 else nativeHandlerPtr)
        && |clientCalls| == |old(clientCalls)| + 1 && clientCalls[..|old(clientCalls)|] == old(clientCalls)
        && clientCalls[|old(clientCalls)|].ReceivedSslError?
        && clientCalls[|old(clientCalls)|].handlerPtr == nativeHandlerPtr
        && clientCalls[|old(clientCalls)|].error.url == failingUri
        && clientCalls[|old(clientCalls)|].error.firstError == sslErrors[0]
        && (forall code :: code in clientCalls[|old(clientCalls)|].error.errors <==> code in sslErrors)
      ensures handled && clientThrows && nativeHandlerPtr != 0 ==>
        handler.nativeCalls == [NativeTriggerSslErrorHandler(nativeHandlerPtr, false)]
      ensures handled && !(clientThrows && nativeHandlerPtr != 0) ==> handler.nativeCalls == []
    {
      handler := null;
      if viewClient.None? || !certificateParses {
        return false, null;
      }
      var sslError := WrapSslErrors(failingUri, sslErrors);
      if sslError.Err? {
        return false, null;
      }
      handler := new SslErrorHandlerImpl(nativeHandlerPtr);
      clientCalls := clientCalls + [ReceivedSslError(sslError.value, nativeHandlerPtr)];
      if clientThrows {
        handler.Cancel();
      }
      handled := true;
    }
  }
}
