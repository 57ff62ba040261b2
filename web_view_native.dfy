/**
 * The native half of the web view (wpeview Runtime/WKWebView.cpp).
 *
 * It owns the WebKit web view, forwards WebKit's signals to the Java
 * `WKWebView`, and feeds Android input and buffers to WebKit. WebKit, GLib,
 * the renderer and the Java side are modelled by the effects the native view
 * has on them, in the order it has them; results of foreign calls (the host
 * parsed from a URI, the ids of connected signal handlers, the answer of the
 * Java side) are parameters.
 */
module WebViewNative {
  import opened Wrappers

  // ----- TLS errors -----

  /** `GTlsCertificateFlags`. */
  const G_TLS_CERTIFICATE_UNKNOWN_CA: bv32 := 1
  const G_TLS_CERTIFICATE_BAD_IDENTITY: bv32 := 2
  const G_TLS_CERTIFICATE_NOT_ACTIVATED: bv32 := 4
  const G_TLS_CERTIFICATE_EXPIRED: bv32 := 8
  const G_TLS_CERTIFICATE_REVOKED: bv32 := 16
  const G_TLS_CERTIFICATE_INSECURE: bv32 := 32
  const G_TLS_CERTIFICATE_GENERIC_ERROR: bv32 := 64

  /** The primary error codes of `android.net.http.SslError`. */
  const SSL_NOTYETVALID := 0
  const SSL_EXPIRED := 1
  const SSL_IDMISMATCH := 2
  const SSL_UNTRUSTED := 3
  const SSL_INVALID := 5

  /** The position of a code in the fixed order in which the codes are reported. */
  function ReportOrder(code: int): nat
  {
    if code == SSL_UNTRUSTED then 0
    else if code == SSL_EXPIRED then 1
    else if code == SSL_NOTYETVALID then 2
    else if code == SSL_IDMISMATCH then 3
    else 4
  }

  predicate IsUntrusted(flags: bv32) { flags & (G_TLS_CERTIFICATE_UNKNOWN_CA | G_TLS_CERTIFICATE_REVOKED) != 0 }
  predicate IsExpired(flags: bv32) { flags & G_TLS_CERTIFICATE_EXPIRED != 0 }
  predicate IsNotYetValid(flags: bv32) { flags & G_TLS_CERTIFICATE_NOT_ACTIVATED != 0 }
  predicate IsIdMismatch(flags: bv32) { flags & G_TLS_CERTIFICATE_BAD_IDENTITY != 0 }
  predicate IsInvalid(flags: bv32) { flags & (G_TLS_CERTIFICATE_INSECURE | G_TLS_CERTIFICATE_GENERIC_ERROR) != 0 }

  function OptionalCode(present: bool, code: int): seq<int>
  {
    if present then [code] else []
  }

  /**
   * The codes for the classes of error present, in report order: one code
   * per class, and "invalid" also whenever no more specific class applies,
   * so the list is never empty.
   */
  function CodesFor(untrusted: bool, expired: bool, notYetValid: bool, idMismatch: bool, invalid: bool): (codes: seq<int>)
    ensures 1 <= |codes| <= 5
    ensures SSL_UNTRUSTED in codes <==> untrusted
    ensures SSL_EXPIRED in codes <==> expired
    ensures SSL_NOTYETVALID in codes <==> notYetValid
    ensures SSL_IDMISMATCH in codes <==> idMismatch
    ensures SSL_INVALID in codes <==> invalid || !(untrusted || expired || notYetValid || idMismatch)
  {
    var specific := OptionalCode(untrusted, SSL_UNTRUSTED) + OptionalCode(expired, SSL_EXPIRED)
                    + OptionalCode(notYetValid, SSL_NOTYETVALID) + OptionalCode(idMismatch, SSL_IDMISMATCH);
    specific + OptionalCode(invalid || specific == [], SSL_INVALID)
  }

  /** The codes of `s` are listed in strictly increasing report order. */
  predicate InReportOrder(s: seq<int>)
  {
    forall i, j :: 0 <= i < j < |s| ==> ReportOrder(s[i]) < ReportOrder(s[j])
  }

  /** Every code of `s` is reported before position `bound` of the report order. */
  predicate RanksBelow(s: seq<int>, bound: nat)
  {
    forall i :: 0 <= i < |s| ==> ReportOrder(s[i]) < bound
  }

  lemma AppendInReportOrder(s: seq<int>, present: bool, code: int)
    requires InReportOrder(s) && RanksBelow(s, ReportOrder(code))
    ensures InReportOrder(s + OptionalCode(present, code))
    ensures RanksBelow(s + OptionalCode(present, code), ReportOrder(code) + 1)
  {
    var t := s + OptionalCode(present, code);
    forall i, j | 0 <= i < j < |t|
      ensures ReportOrder(t[i]) < ReportOrder(t[j])
    {
      if j < |s| {
        assert t[i] == s[i] && t[j] == s[j];
      } else {
        assert t[i] == s[i] && t[j] == code;
      }
    }
    forall i | 0 <= i < |t|
      ensures ReportOrder(t[i]) < ReportOrder(code) + 1
    {
      if i < |s| {
        assert t[i] == s[i];
      }
    }
  }

  /** The codes are listed in report order, so no code is listed twice. */
  lemma {:induction false} CodesInReportOrder(untrusted: bool, expired: bool, notYetValid: bool, idMismatch: bool, invalid: bool)
    ensures InReportOrder(CodesFor(untrusted, expired, notYetValid, idMismatch, invalid))
  {
    var s1 := OptionalCode(untrusted, SSL_UNTRUSTED);
    assert ReportOrder(SSL_UNTRUSTED) == 0 && ReportOrder(SSL_EXPIRED) == 1 && ReportOrder(SSL_NOTYETVALID) == 2;
    assert ReportOrder(SSL_IDMISMATCH) == 3 && ReportOrder(SSL_INVALID) == 4;
    AppendInReportOrder([], untrusted, SSL_UNTRUSTED);
    assert [] + s1 == s1;
    AppendInReportOrder(s1, expired, SSL_EXPIRED);
    var s2 := s1 + OptionalCode(expired, SSL_EXPIRED);
    AppendInReportOrder(s2, notYetValid, SSL_NOTYETVALID);
    var s3 := s2 + OptionalCode(notYetValid, SSL_NOTYETVALID);
    AppendInReportOrder(s3, idMismatch, SSL_IDMISMATCH);
    var s4 := s3 + OptionalCode(idMismatch, SSL_IDMISMATCH);
    AppendInReportOrder(s4, invalid || s4 == [], SSL_INVALID);
    assert CodesFor(untrusted, expired, notYetValid, idMismatch, invalid) == s4 + OptionalCode(invalid || s4 == [], SSL_INVALID);
  }

  /** The SslError codes reported to Java for a set of TLS error flags. */
  function SslErrorCodes(flags: bv32): (codes: seq<int>)
    ensures 1 <= |codes| <= 5
    ensures SSL_UNTRUSTED in codes <==> flags & (G_TLS_CERTIFICATE_UNKNOWN_CA | G_TLS_CERTIFICATE_REVOKED) != 0
    ensures SSL_EXPIRED in codes <==> flags & G_TLS_CERTIFICATE_EXPIRED != 0
    ensures SSL_NOTYETVALID in codes <==> flags & G_TLS_CERTIFICATE_NOT_ACTIVATED != 0
    ensures SSL_IDMISMATCH in codes <==> flags & G_TLS_CERTIFICATE_BAD_IDENTITY != 0
    ensures SSL_INVALID in codes <==>
      || flags & (G_TLS_CERTIFICATE_INSECURE | G_TLS_CERTIFICATE_GENERIC_ERROR) != 0
      || (&& flags & (G_TLS_CERTIFICATE_UNKNOWN_CA | G_TLS_CERTIFICATE_REVOKED) == 0
          && flags & G_TLS_CERTIFICATE_EXPIRED == 0
          && flags & G_TLS_CERTIFICATE_NOT_ACTIVATED == 0
          && flags & G_TLS_CERTIFICATE_BAD_IDENTITY == 0)
  {
    CodesFor(IsUntrusted(flags), IsExpired(flags), IsNotYetValid(flags), IsIdMismatch(flags), IsInvalid(flags))
  }

  /** The codes reported for any flags are pairwise distinct. */
  lemma SslErrorCodesDistinct(flags: bv32)
    ensures forall i, j :: 0 <= i < j < |SslErrorCodes(flags)| ==> SslErrorCodes(flags)[i] != SslErrorCodes(flags)[j]
  {
    CodesInReportOrder(IsUntrusted(flags), IsExpired(flags), IsNotYetValid(flags), IsIdMismatch(flags), IsInvalid(flags));
    var codes := SslErrorCodes(flags);
    forall i, j | 0 <= i < j < |codes|
      ensures codes[i] != codes[j]
    {
      assert ReportOrder(codes[i]) < ReportOrder(codes[j]);
    }
  }

  /** `errors[nbErrors++] = code` when `present`: the filled prefix grows by the optional code. */
  method WriteCodeIf(errors: array<int>, nbErrors: nat, present: bool, code: int) returns (count: nat)
    requires nbErrors < errors.Length
    modifies errors
    ensures count == nbErrors + |OptionalCode(present, code)|
    ensures errors[..count] == old(errors[..nbErrors]) + OptionalCode(present, code)
  {
    count := nbErrors;
    if present {
      errors[count] := code;
      count := count + 1;
    }
  }

  /**
   * The `errors[5]` array of `onReceivedSslError`, filled code by code with
   * `nbErrors` counting the codes written so far, given the classes of
   * error present.
   */
  method FillErrorCodes(untrusted: bool, expired: bool, notYetValid: bool, idMismatch: bool, invalid: bool)
    returns (codes: seq<int>)
    ensures codes == CodesFor(untrusted, expired, notYetValid, idMismatch, invalid)
  {
    var errors := new int[5](_ => 0);
    var nbErrors := 0;
    assert errors[..0] == [];
    nbErrors := WriteCodeIf(errors, nbErrors, untrusted, SSL_UNTRUSTED);
    ghost var written := errors[..nbErrors];
    nbErrors := WriteCodeIf(errors, nbErrors, expired, SSL_EXPIRED);
    assert errors[..nbErrors] == written + OptionalCode(expired, SSL_EXPIRED);
    written := errors[..nbErrors];
    nbErrors := WriteCodeIf(errors, nbErrors, notYetValid, SSL_NOTYETVALID);
    assert errors[..nbErrors] == written + OptionalCode(notYetValid, SSL_NOTYETVALID);
    written := errors[..nbErrors];
    nbErrors := WriteCodeIf(errors, nbErrors, idMismatch, SSL_IDMISMATCH);
    assert errors[..nbErrors] == written + OptionalCode(idMismatch, SSL_IDMISMATCH);
    written := errors[..nbErrors];
    assert written == OptionalCode(untrusted, SSL_UNTRUSTED) + OptionalCode(expired, SSL_EXPIRED)
                      + OptionalCode(notYetValid, SSL_NOTYETVALID) + OptionalCode(idMismatch, SSL_IDMISMATCH);
    nbErrors := WriteCodeIf(errors, nbErrors, invalid || nbErrors == 0, SSL_INVALID);
    codes := errors[..nbErrors];
    assert codes == written + OptionalCode(invalid || written == [], SSL_INVALID);
  }

  /** `onReceivedSslError`'s codes: the flags are sorted into classes of error, then written. */
  method CollectSslErrors(flags: bv32) returns (codes: seq<int>)
    ensures codes == SslErrorCodes(flags)
  {
    codes := FillErrorCodes(IsUntrusted(flags), IsExpired(flags), IsNotYetValid(flags), IsIdMismatch(flags), IsInvalid(flags));
  }

  /** A TLS certificate and the PEM text its "certificate-pem" property yields (null when unset). */
  datatype Certificate = Certificate(id: nat, pem: Option<string>)

  /** The native `SslErrorHandler`: what accepting a certificate needs. */
  datatype SslErrorHandler = SslErrorHandler(webView: nat, certificate: nat, failingUri: string, host: string)

  /** A created handler together with the PEM text written to the caller's out-parameter. */
  datatype CreatedHandler = CreatedHandler(handler: SslErrorHandler, certificatePem: string)

  /**
   * `SslErrorHandler::createHandler`. A handler exists only for a web view,
   * a certificate, a non-empty failing URI with a host and a certificate
   * with PEM text, and only when the caller supplied somewhere to put the
   * PEM. `hostOf` stands for GLib's relaxed URI parser.
   */
  function CreateHandler(webView: Option<nat>, certificate: Option<Certificate>, failingUri: Option<string>,
                         hasPemOut: bool, hostOf: string -> Option<string>): (r: Option<CreatedHandler>)
    ensures r.Some? <==>
      webView.Some? && certificate.Some? && failingUri.Some? && failingUri.value != [] && hasPemOut
      && hostOf(failingUri.value).Some? && certificate.value.pem.Some?
    ensures r.Some? ==>
      r.value.handler == SslErrorHandler(webView.value, certificate.value.id, failingUri.value, hostOf(failingUri.value).value)
      && r.value.certificatePem == certificate.value.pem.value
  {
    if webView.None? || certificate.None? || failingUri.None? || failingUri.value == [] || !hasPemOut then None
    else match hostOf(failingUri.value)
      case None => None
      case Some(host) =>
        match certificate.value.pem
        case None => None
        case Some(pem) => Some(CreatedHandler(SslErrorHandler(webView.value, certificate.value.id, failingUri.value, host), pem))
  }

  // ----- Touch input -----

  /** `wpe_input_touch_event_type`. */
  datatype TouchType = TouchNull | TouchDown | TouchMotion | TouchUp

  /** The touch type for an Android motion action code; unknown codes give the null type. */
  function TouchEventType(action: int): (t: TouchType)
    ensures t != TouchNull <==> 0 <= action <= 2
  {
    if action == 0 then TouchDown
    else if action == 1 then TouchMotion
    else if action == 2 then TouchUp
    else TouchNull
  }

  /** The action code a touch type comes from (the null type has none). */
  function TouchActionCode(t: TouchType): (code: Option<int>)
    ensures code.None? <==> t == TouchNull
  {
    match t
    case TouchNull => None
    case TouchDown => Some(0)
    case TouchMotion => Some(1)
    case TouchUp => Some(2)
  }

  lemma TouchEventTypeRoundTrip(action: int)
    ensures TouchActionCode(TouchEventType(action)) == (if 0 <= action <= 2 then Some(action) else None)
  {
  }

  lemma TouchActionCodeRoundTrip(t: TouchType)
    requires t != TouchNull
    ensures TouchEventType(TouchActionCode(t).value) == t
  {
  }

  /** The conversion of a Java `long` timestamp to `uint32_t`: modulo 2^32. */
  function TouchTime(time: int): (t: nat)
    ensures t < 0x1_0000_0000 && (time - t) % 0x1_0000_0000 == 0
  {
    time % 0x1_0000_0000
  }

  /** A touch point; its coordinates, rounded floats, are not modelled. */
  datatype TouchPoint = TouchPoint(kind: TouchType, time: nat, id: int)

  /** The touch event dispatched to WPE: the first point gives the event's id. */
  datatype TouchEvent = TouchEvent(points: seq<TouchPoint>, kind: TouchType, id: int, time: nat)

  // ----- HTTP errors -----

  /** The first status code WebKit's response is reported as an HTTP error for. */
  const HTTP_ERRORS_START := 400

  /** `WebKitPolicyDecisionType`, with what a response decision carries. */
  datatype UriRequest = UriRequest(uri: string, httpMethod: string, headers: seq<(string, string)>)
  datatype UriResponse = UriResponse(statusCode: nat, mimeType: string, headers: seq<(string, string)>)
  datatype PolicyDecision =
    | NavigationAction
    | NewWindowAction
    | Response(request: UriRequest, response: UriResponse)

  /** The header list flattened into the string array handed to Java: name, value, name, value, ... */
  function Flattened(headers: seq<(string, string)>): (flat: seq<string>)
    ensures |flat| == 2 * |headers|
  {
    if headers == [] then []
    else Flattened(headers[..|headers| - 1]) + [headers[|headers| - 1].0, headers[|headers| - 1].1]
  }

  /** The flattened array alternates names and values, in header order. */
  lemma {:induction false} FlattenedAlternates(headers: seq<(string, string)>)
    ensures forall i :: 0 <= i < |headers| ==>
      Flattened(headers)[2 * i] == headers[i].0 && Flattened(headers)[2 * i + 1] == headers[i].1
  {
    if headers != [] {
      var init := headers[..|headers| - 1];
      FlattenedAlternates(init);
      forall i | 0 <= i < |headers|
        ensures Flattened(headers)[2 * i] == headers[i].0 && Flattened(headers)[2 * i + 1] == headers[i].1
      {
        if i < |init| {
          assert headers[i] == init[i];
        }
      }
    }
  }

  /**
   * The `soup_message_headers_iter_next` loop of `onDecidePolicy`: each
   * header pushes its name, then its value.
   */
  method FlattenHeaders(headers: seq<(string, string)>) returns (flat: seq<string>)
    ensures flat == Flattened(headers)
  {
    flat := [];
    var i := 0;
    while i < |headers|
      invariant 0 <= i <= |headers|
      invariant flat == Flattened(headers[..i])
    {
      assert headers[..i + 1][..i] == headers[..i];
      flat := flat + [headers[i].0, headers[i].1];
      i := i + 1;
    }
    assert headers[..i] == headers;
  }

  // ----- The native web view -----

  /** A buffer committed by WebKit, with the size it was rendered at. */
  datatype WpeBuffer = WpeBuffer(id: nat, width: nat, height: nat)

  /** What the native view does to WebKit, the renderer and the Java view. */
  datatype Effect =
    | RendererDestroyed
    | InputMethodContextCleared(webView: nat)
    | SignalDisconnected(webView: nat, handlerId: nat)
    | TryClose(webView: nat)
    | JavaEnterFullscreenMode
    | JavaExitFullscreenMode
    | DidExitFullscreen
    | DidEnterFullscreen
    | BufferReleased(buffer: WpeBuffer)
    | FrameComplete
    | RendererCommit(buffer: WpeBuffer, fenceFd: int)
    | RendererSurfaceChanged(format: int, width: nat, height: nat)
    | JavaReceivedHttpError(requestUri: string, requestMethod: string, requestHeaders: seq<string>,
                            responseMimeType: string, responseStatusCode: nat, responseHeaders: seq<string>)
    | JavaReceivedSslError(failingUri: string, certificatePem: string, sslErrors: seq<int>, handlerPtr: nat)
    | TlsCertificateAllowed(webView: nat, certificate: nat, host: string)
    | UriLoaded(webView: nat, uri: string)
    | TouchDispatched(event: TouchEvent)

  /** One disconnection per signal handler, in the order they were connected. */
  function Disconnections(webView: nat, handlerIds: seq<nat>): (effects: seq<Effect>)
    ensures |effects| == |handlerIds|
    ensures forall i :: 0 <= i < |handlerIds| ==> effects[i] == SignalDisconnected(webView, handlerIds[i])
  {
    if handlerIds == [] then []
    else Disconnections(webView, handlerIds[..|handlerIds| - 1]) + [SignalDisconnected(webView, handlerIds[|handlerIds| - 1])]
  }

  /** The renderer's size for the requested view size: negative sizes become 0. */
  function ClampedSize(size: int): (s: nat)
    ensures s == if size < 0 then 0 else size
  {
    if size < 0 then 0 else size
  }

  class NativeWebView {
    /** `m_webView`, null once closed. */
    var webView: Option<nat>
    /** Whether `m_viewBackend` is set. */
    var hasViewBackend: bool
    /** Whether `m_renderer` is set, and its size. */
    var hasRenderer: bool
    var rendererWidth: nat
    var rendererHeight: nat
    const isHeadless: bool
    var isFullscreenRequested: bool
    var signalHandlers: seq<nat>
    /** The SSL error handlers handed to Java and not yet deleted, by pointer. */
    var liveHandlers: map<nat, SslErrorHandler>
    /** The pointer the next handler gets; pointers are never reused and never 0. */
    var nextHandlerPtr: nat
    var effects: seq<Effect>

    predicate Valid()
      reads this
    {
      (webView.None? ==> !hasViewBackend && !hasRenderer && signalHandlers == [])
      && (isHeadless ==> !hasRenderer)
      && 0 < nextHandlerPtr
      && 0 !in liveHandlers
      && forall ptr :: ptr in liveHandlers ==> ptr < nextHandlerPtr
    }

    /**
     * The constructor: a view backend, a renderer of the clamped size unless
     * headless, and the web view `webView` with the signal handlers
     * `handlerIds` connected.
     */
    constructor (width: int, height: int, headless: bool, webView: nat, handlerIds: seq<nat>)
      ensures Valid()
      ensures this.webView == Some(webView) && hasViewBackend && isHeadless == headless
      ensures hasRenderer == !headless && rendererWidth == ClampedSize(width) && rendererHeight == ClampedSize(height)
      ensures !isFullscreenRequested && signalHandlers == handlerIds
      ensures liveHandlers == map[] && effects == []
    {
      this.webView := Some(webView);
      hasViewBackend := true;
      isHeadless := headless;
      hasRenderer := !headless;
      rendererWidth := ClampedSize(width);
      rendererHeight := ClampedSize(height);
      isFullscreenRequested := false;
      signalHandlers := handlerIds;
      liveHandlers := map[];
      nextHandlerPtr := 1;
      effects := [];
    }

    /**
     * `close`: the renderer goes first, then the input method context, the
     * signal handlers and the web view itself. A closed view stays closed,
     * so a second close does nothing.
     */
    method Close()
      requires Valid()
      modifies this`webView, this`hasViewBackend, this`hasRenderer, this`signalHandlers, this`effects
      ensures Valid()
      ensures webView.None?
      ensures old(webView).None? ==> effects == old(effects) && signalHandlers == old(signalHandlers)
      ensures old(webView).Some? ==>
        effects == old(effects) + [RendererDestroyed, InputMethodContextCleared(old(webView).value)]
                   + Disconnections(old(webView).value, old(signalHandlers)) + [TryClose(old(webView).value)]
      ensures signalHandlers == [] && !hasViewBackend && !hasRenderer
      ensures isFullscreenRequested == old(isFullscreenRequested) && liveHandlers == old(liveHandlers)
      ensures nextHandlerPtr == old(nextHandlerPtr) && rendererWidth == old(rendererWidth) && rendererHeight == old(rendererHeight)
    {
      if webView.Some? {
        var w := webView.value;
        hasRenderer := false;
        effects := effects + [RendererDestroyed, InputMethodContextCleared(w)];
        var prefix := effects;
        var i := 0;
        while i < |signalHandlers|
          invariant 0 <= i <= |signalHandlers|
          invariant effects == prefix + Disconnections(w, signalHandlers[..i])
          invariant webView == Some(w) && signalHandlers == old(signalHandlers) && !hasRenderer
        {
          assert signalHandlers[..i + 1][..i] == signalHandlers[..i];
          effects := effects + [SignalDisconnected(w, signalHandlers[i])];
          i := i + 1;
        }
        assert signalHandlers[..i] == signalHandlers;
        signalHandlers := [];
        effects := effects + [TryClose(w)];
        hasViewBackend := false;
        webView := None;
      }
    }

    /**
     * The fullscreen handler: with a view backend it records the request and
     * tells Java; leaving fullscreen is also confirmed to WPE at once.
     * It always reports the request as handled.
     */
    method OnFullscreenRequest(fullscreen: bool) returns (handled: bool)
      requires Valid()
      modifies this`isFullscreenRequested, this`effects
      ensures Valid()
      ensures handled
      ensures !hasViewBackend ==> isFullscreenRequested == old(isFullscreenRequested) && effects == old(effects)
      ensures hasViewBackend ==> isFullscreenRequested == fullscreen
      ensures hasViewBackend && fullscreen ==> effects == old(effects) + [JavaEnterFullscreenMode]
      ensures hasViewBackend && !fullscreen ==> effects == old(effects) + [JavaExitFullscreenMode, DidExitFullscreen]
    {
      if hasViewBackend {
        isFullscreenRequested := fullscreen;
        if fullscreen {
          effects := effects + [JavaEnterFullscreenMode];
        } else {
          effects := effects + [JavaExitFullscreenMode, DidExitFullscreen];
        }
      }
      handled := true;
    }

    /**
     * `nativeSurfaceChanged`: with a view backend and a renderer, the
     * renderer takes the new surface size, negative sizes counting as 0;
     * otherwise nothing happens.
     */
    method OnSurfaceChanged(format: int, width: int, height: int)
      requires Valid()
      modifies this`rendererWidth, this`rendererHeight, this`effects
      ensures Valid()
      ensures hasViewBackend && hasRenderer ==>
        && rendererWidth == ClampedSize(width) && rendererHeight == ClampedSize(height)
        && effects == old(effects) + [RendererSurfaceChanged(format, rendererWidth, rendererHeight)]
      ensures !(hasViewBackend && hasRenderer) ==>
        rendererWidth == old(rendererWidth) && rendererHeight == old(rendererHeight) && effects == old(effects)
    {
      if hasViewBackend && hasRenderer {
        rendererWidth := ClampedSize(width);
        rendererHeight := ClampedSize(height);
        effects := effects + [RendererSurfaceChanged(format, rendererWidth, rendererHeight)];
      }
    }

    /** Whether a committed buffer completes a pending fullscreen request. */
    predicate CompletesFullscreen(buffer: WpeBuffer)
      reads this
    {
      isFullscreenRequested && buffer.width == rendererWidth && buffer.height == rendererHeight
    }

    /**
     * `commitBuffer`: a headless view hands the buffer straight back and
     * completes the frame; otherwise the renderer shows it. The first buffer
     * of the renderer's size after a fullscreen request tells WPE that
     * fullscreen has been entered, and clears the request.
     */
    method CommitBuffer(buffer: WpeBuffer, fenceFd: int)
      requires Valid()
      modifies this`isFullscreenRequested, this`effects
      ensures Valid()
      ensures !hasViewBackend || (!isHeadless && !hasRenderer) ==>
        isFullscreenRequested == old(isFullscreenRequested) && effects == old(effects)
      ensures hasViewBackend && isHeadless ==>
        isFullscreenRequested == old(isFullscreenRequested) && effects == old(effects) + [BufferReleased(buffer), FrameComplete]
      ensures hasViewBackend && !isHeadless && hasRenderer ==>
        isFullscreenRequested == (old(isFullscreenRequested) && !old(CompletesFullscreen(buffer)))
        && effects == old(effects) + (if old(CompletesFullscreen(buffer)) then [DidEnterFullscreen] else [])
                      + [RendererCommit(buffer, fenceFd)]
    {
      if hasViewBackend {
        if isHeadless {
          effects := effects + [BufferReleased(buffer), FrameComplete];
        } else if hasRenderer {
          if CompletesFullscreen(buffer) {
            isFullscreenRequested := false;
            effects := effects + [DidEnterFullscreen];
          }
          effects := effects + [RendererCommit(buffer, fenceFd)];
        }
      }
    }

    /**
     * `onDecidePolicy`: a response with an error status (4xx or 5xx) is
     * reported to Java with its request and both header lists flattened.
     * The decision itself is always left to WebKit's default.
     */
    method OnDecidePolicy(decision: PolicyDecision) returns (handled: bool)
      requires Valid()
      modifies this`effects
      ensures Valid()
      ensures !handled
      ensures !(decision.Response? && decision.response.statusCode >= HTTP_ERRORS_START) ==> effects == old(effects)
      ensures decision.Response? && decision.response.statusCode >= HTTP_ERRORS_START ==>
        effects == old(effects) + [JavaReceivedHttpError(decision.request.uri, decision.request.httpMethod, Flattened(decision.request.headers),
                                                         decision.response.mimeType, decision.response.statusCode,
                                                         Flattened(decision.response.headers))]
    {
      if decision.Response? && decision.response.statusCode >= HTTP_ERRORS_START {
        var requestHeaders := FlattenHeaders(decision.request.headers);
        var responseHeaders := FlattenHeaders(decision.response.headers);
        effects := effects + [JavaReceivedHttpError(decision.request.uri, decision.request.httpMethod, requestHeaders,
                                                    decision.response.mimeType, decision.response.statusCode, responseHeaders)];
      }
      handled := false;
    }

    /**
     * `onReceivedSslError` for the signal's `signalWebView`. With a handler
     * to offer, Java gets the failing URI, the PEM text, the SslError codes
     * and the handler's pointer. `javaAnswer` is what the Java callback
     * returns, `None` when it throws. Unless Java takes the handler (answers
     * true), the handler is deleted and WebKit's default applies.
     */
    method OnReceivedSslError(failingUri: Option<string>, certificate: Option<Certificate>, errorFlags: bv32,
                              signalWebView: Option<nat>, hostOf: string -> Option<string>, javaAnswer: Option<bool>)
      returns (handled: bool)
      requires Valid()
      modifies this`liveHandlers, this`nextHandlerPtr, this`effects
      ensures Valid()
      ensures var created := CreateHandler(signalWebView, certificate, failingUri, true, hostOf);
        if webView != signalWebView || created.None? then
          !handled && effects == old(effects) && liveHandlers == old(liveHandlers)
        else
          effects == old(effects) + [JavaReceivedSslError(failingUri.value, created.value.certificatePem,
                                                          SslErrorCodes(errorFlags), old(nextHandlerPtr))]
          && handled == (javaAnswer == Some(true))
          && liveHandlers == if handled then old(liveHandlers)[old(nextHandlerPtr) := created.value.handler]
                             else old(liveHandlers)
    {
      handled := false;
      if webView != signalWebView {
        return;
      }
      var created := CreateHandler(signalWebView, certificate, failingUri, true, hostOf);
      if created.None? {
        return;
      }
      var ptr := nextHandlerPtr;
      nextHandlerPtr := nextHandlerPtr + 1;
      liveHandlers := liveHandlers[ptr := created.value.handler];
      var codes := CollectSslErrors(errorFlags);
      effects := effects + [JavaReceivedSslError(failingUri.value, created.value.certificatePem, codes, ptr)];
      if javaAnswer == Some(true) {
        handled := true;
      } else {
        liveHandlers := liveHandlers - {ptr};
        assert liveHandlers == old(liveHandlers);
      }
    }

    /**
     * `nativeTriggerSslErrorHandler`: accepting allows the certificate for
     * the handler's host and reloads the failing URI, provided the web view
     * is still alive (`webViewAlive`) and has a network session; either way
     * the handler is deleted. A null pointer does nothing.
     */
    method TriggerSslErrorHandler(handlerPtr: nat, acceptCertificate: bool, webViewAlive: bool, hasNetworkSession: bool)
      requires Valid()
      requires handlerPtr == 0 || handlerPtr in liveHandlers
      modifies this`liveHandlers, this`effects
      ensures Valid()
      ensures handlerPtr == 0 ==> liveHandlers == old(liveHandlers) && effects == old(effects)
      ensures handlerPtr != 0 ==> liveHandlers == old(liveHandlers) - {handlerPtr}
      ensures handlerPtr != 0 && acceptCertificate && webViewAlive && hasNetworkSession ==>
        var h := old(liveHandlers)[handlerPtr];
        effects == old(effects) + [TlsCertificateAllowed(h.webView, h.certificate, h.host), UriLoaded(h.webView, h.failingUri)]
      ensures handlerPtr != 0 && !(acceptCertificate && webViewAlive && hasNetworkSession) ==> effects == old(effects)
    {
      if handlerPtr != 0 {
        var h := liveHandlers[handlerPtr];
        if acceptCertificate && webViewAlive && hasNetworkSession {
          effects := effects + [TlsCertificateAllowed(h.webView, h.certificate, h.host), UriLoaded(h.webView, h.failingUri)];
        }
        liveHandlers := liveHandlers - {handlerPtr};
      }
    }

    /**
     * `nativeOnTouchEvent`: with a view backend, every pointer becomes a
     * touch point of the mapped type and truncated time, and the event takes
     * its id from the first pointer (so at least one pointer is needed).
     */
    method OnTouchEvent(time: int, action: int, ids: seq<int>)
      requires Valid()
      requires hasViewBackend ==> |ids| >= 1
      modifies this`effects
      ensures Valid()
      ensures !hasViewBackend ==> effects == old(effects)
      ensures hasViewBackend ==>
        |effects| == |old(effects)| + 1 && effects[..|old(effects)|] == old(effects)
        && effects[|old(effects)|].TouchDispatched?
        && var event := effects[|old(effects)|].event;
        event.kind == TouchEventType(action) && event.id == ids[0] && event.time == TouchTime(time)
        && |event.points| == |ids|
        && forall i :: 0 <= i < |ids| ==> event.points[i] == TouchPoint(TouchEventType(action), TouchTime(time), ids[i])
    {
      if hasViewBackend {
        var kind := TouchEventType(action);
        var t := TouchTime(time);
        var points: seq<TouchPoint> := [];
        var i := 0;
        while i < |ids|
          invariant 0 <= i <= |ids|
          invariant |points| == i
          invariant forall k :: 0 <= k < i ==> points[k] == TouchPoint(kind, t, ids[k])
        {
          points := points + [TouchPoint(kind, t, ids[i])];
          i := i + 1;
        }
        effects := effects + [TouchDispatched(TouchEvent(points, kind, points[0].id, t))];
      }
    }
  }
}
