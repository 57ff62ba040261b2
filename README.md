# WPE Android, modelled in Dafny

WPE Android embeds the WPE port of WebKit in Android applications. Most of
the repository is Android UI and JNI glue around WebKit, but scattered
through it is small, self-contained logic that can be stated and verified.
This project models that logic and proves what it promises:

- the registry of auxiliary processes (per-type slots, a pid map and a "first free slot" cursor);
- the SurfaceControl renderer (a transaction queue, an in-flight counter, pending and front buffers);
- the native and Java halves of the web view: TLS error codes, the SSL error handler, response headers, touch events, close and destroy, fullscreen, page-state callbacks, script dialogs;
- the translation of Android key events into XKB keycodes, keysyms and WPE modifiers;
- the message pump that runs the GLib main context inside an Android looper;
- the input connection that commits input-method text code point by code point;
- the cookie manager's accept policy and the website-data manager's type masks, with their result callbacks;
- the minibrowser's tab list and its two-level navigator;
- the library-installation steps of the bootstrap script;
- the Android toplevel's state flags, the power-profile monitor, and the input-method context registry;
- how a process decides its kind from its name, and which libraries it loads;
- the web view settings, their change-only setters and the default user agent;
- the JNI type signatures built at compile time.

There is one Dafny module per source file, plus `Wrappers` (`Option`,
`Result`). Objects whose fields the source updates in place are classes,
with `modifies` frames. Pure code becomes functions, with lemmas relating
them to a partner: an inverse, a reference definition, or an invariant.
Calls into WebKit, GLib, the JVM and Android are not executed. They are
recorded as logs of effects in call order, or their results are
parameters. Pointers are numbers, 0 standing for null.

Numeric constants of external headers are written out under their own
names with their published values. These are the NDK keycodes and meta
flags, Linux input codes, xkbcommon keysyms, GLib poll flags, looper
events, TLS certificate flags, the SslError codes, and WPE's toplevel
state and modifier bits.

## Model

| member | source | states |
|---|---|---|
| AuxiliaryProcesses.AuxiliaryProcessesContainer.constructor | wpe/src/main/java/org/wpewebkit/wpe/AuxiliaryProcessesContainer.java:30-34 | every slot is empty, no pid is mapped and every cursor is 0, which satisfies the container invariant |
| AuxiliaryProcesses.AuxiliaryProcessesContainer.GetFirstAvailableSlot | wpe/src/main/java/org/wpewebkit/wpe/AuxiliaryProcessesContainer.java:36-38 | the cursor is in 0..40, every slot below it is occupied and the slot at it (if below 40) is free |
| AuxiliaryProcesses.AuxiliaryProcessesContainer.Register | wpe/src/main/java/org/wpewebkit/wpe/AuxiliaryProcessesContainer.java:40-55 | with the cursor at 40 it fails with the limit error and changes nothing; otherwise the process is stored in exactly the slot the cursor named, the pid maps to it, no other slot or type's cursor changes, the cursor moves past the slot, and the invariant (cursor = lowest free slot, pid map agrees with the slots) is kept |
| AuxiliaryProcesses.AuxiliaryProcessesContainer.Unregister | wpe/src/main/java/org/wpewebkit/wpe/AuxiliaryProcessesContainer.java:57-67 | an unknown pid changes nothing; otherwise the pid is forgotten, its process terminated, its slot emptied, the cursor becomes min(slot, old cursor), nothing else changes and the invariant is kept |
| SurfaceRenderer.RendererSurfaceControl.constructor | wpeview/src/main/cpp/Runtime/RendererSurfaceControl.cpp:40-44 | the renderer starts with the given size, no surface, no buffers, an empty queue and nothing in flight |
| SurfaceRenderer.RendererSurfaceControl.OnSurfaceCreated | wpeview/src/main/cpp/Runtime/RendererSurfaceControl.cpp:75-84 | the new surface is kept, the in-flight count is reset to 0 and the queue emptied |
| SurfaceRenderer.RendererSurfaceControl.OnSurfaceChanged | wpeview/src/main/cpp/Runtime/RendererSurfaceControl.cpp:87-91 | only the width and height change |
| SurfaceRenderer.RendererSurfaceControl.OnSurfaceDestroyed | wpeview/src/main/cpp/Runtime/RendererSurfaceControl.cpp:163-171 | the surface and the front buffer are dropped |
| SurfaceRenderer.RendererSurfaceControl.ApplyBufferTransaction | wpeview/src/main/cpp/Runtime/RendererSurfaceControl.cpp:280-331 | the buffer becomes the current frame; its transaction (releasing the previous current frame) is applied at once and makes the count 1 when nothing is in flight, and is queued otherwise; the renderer invariant (count ≤ 1, queue non-empty only while one is in flight) is kept |
| SurfaceRenderer.RendererSurfaceControl.CommitBuffer | wpeview/src/main/cpp/Runtime/RendererSurfaceControl.cpp:174-218 | without a surface the buffer and fence become the pending ones, the older pending buffer and the current frame are released and the front buffer cleared; with a surface the pending buffer is released and the buffer goes through ApplyBufferTransaction's rule |
| SurfaceRenderer.RendererSurfaceControl.OnSurfaceRedrawNeeded | wpeview/src/main/cpp/Runtime/RendererSurfaceControl.cpp:94-160 | without a surface nothing changes; a pending buffer with a hardware buffer is shown with its fence and pending buffer and fence are cleared; otherwise the front buffer is shown again only when nothing is in flight, which makes the count 1 |
| SurfaceRenderer.RendererSurfaceControl.OnTransactionAck | wpeview/src/main/cpp/Runtime/RendererSurfaceControl.cpp:221-247 | a released buffer gets the first surface stat's fence as its release fence when there is one, stops being the front buffer and is reported to the view as released; no buffer, no change |
| SurfaceRenderer.RendererSurfaceControl.OnTransactionCommitted | wpeview/src/main/cpp/Runtime/RendererSurfaceControl.cpp:250-277 | a rendered buffer becomes the front buffer and is reported; the count drops without going below 0 and the first queued transaction, if any, is applied and popped, making the count 1 again |
| WebViewNative.CodesFor | wpeview/src/main/cpp/Runtime/WKWebView.cpp:318-334 | 1 to 5 codes; each of untrusted, expired, not-yet-valid and id-mismatch is listed iff its flag class is present, and invalid iff insecure/generic is present or no other class applies |
| WebViewNative.CodesInReportOrder | wpeview/src/main/cpp/Runtime/WKWebView.cpp:320-334 | the codes are listed in the fixed order 3, 1, 0, 2, 5 |
| WebViewNative.SslErrorCodes | wpeview/src/main/cpp/Runtime/WKWebView.cpp:318-334 | 1 to 5 codes for any TLS flags; untrusted, expired, not-yet-valid and id-mismatch are each listed iff one of their G_TLS flags is set, and invalid iff insecure or generic-error is set or none of the other flags is |
| WebViewNative.SslErrorCodesDistinct | wpeview/src/main/cpp/Runtime/WKWebView.cpp:318-334 | no code is listed twice, for any flags |
| WebViewNative.CollectSslErrors | wpeview/src/main/cpp/Runtime/WKWebView.cpp:318-340 | the `errors` array filled step by step holds exactly the codes of the flags |
| WebViewNative.FillErrorCodes | wpeview/src/main/cpp/Runtime/WKWebView.cpp:318-334 | given the classes of error present, the array prefix written holds one code per class in report order, plus "invalid" when asked for or when nothing else was written |
| WebViewNative.CreateHandler | wpeview/src/main/cpp/Runtime/WKWebView.cpp:48-79 | a handler exists iff the web view, certificate, non-empty failing URI, PEM out-parameter, URI host and certificate PEM are all there; it holds the view, certificate, URI and host, and the PEM is handed back |
| WebViewNative.TouchEventType | wpeview/src/main/cpp/Runtime/WKWebView.cpp:676-692 | the type is non-null exactly for actions 0, 1 and 2 |
| WebViewNative.TouchActionCode | wpeview/src/main/cpp/Runtime/WKWebView.cpp:676-692 | only the null type has no action code |
| WebViewNative.TouchEventTypeRoundTrip | wpeview/src/main/cpp/Runtime/WKWebView.cpp:676-692 | mapping an action and back gives the action for 0..2 and nothing otherwise (down, motion, up) |
| WebViewNative.TouchActionCodeRoundTrip | wpeview/src/main/cpp/Runtime/WKWebView.cpp:676-692 | every non-null type is the image of its action code |
| WebViewNative.TouchTime | wpeview/src/main/cpp/Runtime/WKWebView.cpp:704-715 | the `uint32_t` cast: below 2^32 and congruent to the time modulo 2^32 |
| WebViewNative.Flattened | wpeview/src/main/cpp/Runtime/WKWebView.cpp:252-276 | the flattened header array has twice as many entries as there are headers |
| WebViewNative.FlattenedAlternates | wpeview/src/main/cpp/Runtime/WKWebView.cpp:252-276 | entry 2i is header i's name and entry 2i+1 its value |
| WebViewNative.FlattenHeaders | wpeview/src/main/cpp/Runtime/WKWebView.cpp:247-263 | the iterator loop builds exactly the flattened array |
| WebViewNative.Disconnections | wpeview/src/main/cpp/Runtime/WKWebView.cpp:897-898 | one disconnection per signal handler, in connection order |
| WebViewNative.NativeWebView.constructor | wpeview/src/main/cpp/Runtime/WKWebView.cpp:828-887 | a view backend, a renderer of the clamped size unless headless, the web view with its signal handlers, no fullscreen request and no live SSL handlers |
| WebViewNative.NativeWebView.Close | wpeview/src/main/cpp/Runtime/WKWebView.cpp:889-907 | an open view destroys the renderer, clears the input-method context, disconnects every handler and tries to close, in that order, and ends closed; a closed view does nothing, so close is idempotent |
| WebViewNative.NativeWebView.OnSurfaceChanged | wpeview/src/main/cpp/Runtime/WKWebView.cpp:629-644 | with a view backend and a renderer, the renderer takes the new size with negative sizes counted as 0, and the change is passed on with the format; otherwise nothing changes |
| WebViewNative.NativeWebView.OnFullscreenRequest | wpeview/src/main/cpp/Runtime/WKWebView.cpp:358-372 | always handled; with a view backend the request is recorded and Java told to enter, or to exit with WPE told at once; without one nothing happens |
| WebViewNative.NativeWebView.CommitBuffer | wpeview/src/main/cpp/Runtime/WKWebView.cpp:919-939 | headless: the buffer is released and the frame completed; with a renderer: a pending fullscreen request is cleared and reported exactly when the buffer has the renderer's size, then the renderer commits it; otherwise nothing |
| WebViewNative.NativeWebView.OnDecidePolicy | wpeview/src/main/cpp/Runtime/WKWebView.cpp:235-290 | never handled; only a response decision with status ≥ 400 reports an HTTP error to Java, with both header lists flattened |
| WebViewNative.NativeWebView.OnReceivedSslError | wpeview/src/main/cpp/Runtime/WKWebView.cpp:292-356 | a foreign web view or no handler: unhandled and nothing happens; otherwise Java gets URI, PEM, codes and handler pointer, and the handler stays alive iff Java answered true |
| WebViewNative.NativeWebView.TriggerSslErrorHandler | wpeview/src/main/cpp/Runtime/WKWebView.cpp:806-820 | a null pointer does nothing; otherwise the handler is deleted, and accepting with a live view and network session allows the certificate for the host and reloads the URI |
| WebViewNative.NativeWebView.OnTouchEvent | wpeview/src/main/cpp/Runtime/WKWebView.cpp:671-722 | with a view backend exactly one event is dispatched: its type is the mapped type, its id the first pointer's, and each pointer becomes a point of that type and truncated time |
| WebViewJava.MapOfFlatKeys | wpeview/src/main/java/org/wpewebkit/wpe/WKWebView.java:716-719 | the keys of the paired map are exactly the names of the flat array |
| WebViewJava.MapOfFlatLastWins | wpeview/src/main/java/org/wpewebkit/wpe/WKWebView.java:716-719 | each name maps to the value of its last pair, so a later duplicate overwrites an earlier one |
| WebViewJava.PairHeaders | wpeview/src/main/java/org/wpewebkit/wpe/WKWebView.java:435-438 | the `put(headers[i++], headers[i++])` loop succeeds iff the array has even length, and then yields the paired map; an odd array throws an out-of-bounds exception |
| WebViewJava.FlattenedHeadersPairBack | wpeview/src/main/java/org/wpewebkit/wpe/WKWebView.java:435-438 | an array flattened by the native side always has even length and pairs back into the map of the original header list |
| WebViewJava.WrapSslErrors | wpeview/src/main/java/org/wpewebkit/wpe/WKWebView.java:654-657 | wrapping succeeds iff there is at least one code; the SslError has the URL, the first code as primary error and exactly the given codes |
| WebViewJava.NativeSslErrorsNeverEmpty | wpeview/src/main/java/org/wpewebkit/wpe/WKWebView.java:654 | the codes the native side sends are never empty, so `sslErrors[0]` never fails on them |
| WebViewJava.SslErrorHandlerImpl.constructor | wpeview/src/main/java/org/wpewebkit/wpe/WKWebView.java:599-607 | the handler holds the native pointer and has made no native call |
| WebViewJava.SslErrorHandlerImpl.Trigger | wpeview/src/main/java/org/wpewebkit/wpe/WKWebView.java:609-614 | native code is triggered only while the pointer is non-zero, and the pointer is zero afterwards, so at most once overall |
| WebViewJava.SslErrorHandlerImpl.Proceed | wpeview/src/main/java/org/wpewebkit/wpe/WKWebView.java:624-627 | accepts through Trigger |
| WebViewJava.SslErrorHandlerImpl.Cancel | wpeview/src/main/java/org/wpewebkit/wpe/WKWebView.java:629-637 | rejects through Trigger |
| WebViewJava.WKWebView.constructor | wpeview/src/main/java/org/wpewebkit/wpe/WKWebView.java:121-165 | nativeInit gets the headless or measured size; the default view client is installed, no chrome client, "about:blank" everywhere, not closed |
| WebViewJava.WKWebView.Close | wpeview/src/main/java/org/wpewebkit/wpe/WKWebView.java:167-173 | native close is called only on the first close; the view ends closed |
| WebViewJava.WKWebView.Destroy | wpeview/src/main/java/org/wpewebkit/wpe/WKWebView.java:175-184 | both clients are dropped and the pointer becomes 0; a live view is closed (if not yet) then destroyed; a second destroy calls nothing native |
| WebViewJava.WKWebView.SetTLSErrorsPolicy | wpeview/src/main/java/org/wpewebkit/wpe/WKWebView.java:249-253 | only policies 0 and 1 are forwarded, any other value is ignored |
| WebViewJava.WKWebView.OnLoadChanged | wpeview/src/main/java/org/wpewebkit/wpe/WKWebView.java:461-472 | with a view client, a start or finish event is reported with the current URI; anything else reports nothing |
| WebViewJava.WKWebView.OnUriChanged | wpeview/src/main/java/org/wpewebkit/wpe/WKWebView.java:487-489 | the URI is stored |
| WebViewJava.WKWebView.OnTitleChanged | wpeview/src/main/java/org/wpewebkit/wpe/WKWebView.java:492-498 | title, canGoBack and canGoForward are stored exactly as given; a chrome client hears of the title |
| WebViewJava.WKWebView.OnScriptDialog | wpeview/src/main/java/org/wpewebkit/wpe/WKWebView.java:502-561 | returns false iff there is no chrome client; otherwise a known dialog type is offered to the client, and a dialog is shown unless the client handled it |
| WebViewJava.WKWebView.OnReceivedHttpError | wpeview/src/main/java/org/wpewebkit/wpe/WKWebView.java:707-725 | with a view client and even-length header arrays the client gets the request and response with the paired header maps; an odd array throws and nothing reaches the client |
| WebViewJava.WKWebView.OnReceivedSslError | wpeview/src/main/java/org/wpewebkit/wpe/WKWebView.java:641-675 | handled iff there is a view client, the certificate parses and there is a code; the client then gets an SslError for the failing URI with the first code and every code, and a fresh handler, which is cancelled at once if the client throws |
| KeyMap.AndroidToXkbKeycode | wpeview/src/main/cpp/Common/AndroidKeyMap.h:42-229 | the result is 0 for an unmapped key and otherwise a Linux input code plus the XKB offset 8 |
| KeyMap.XkbKeycodeRoundTrip | wpeview/src/main/cpp/Common/AndroidKeyMap.h:42-229 | for every mapped key, the independently written reverse table takes the keycode minus 8 back to the key, so every mapped key returns its own Linux code + 8 |
| KeyMap.XkbKeycodeInjective | wpeview/src/main/cpp/Common/AndroidKeyMap.h:42-229 | no two mapped keys share an XKB keycode |
| KeyMap.SpecialKeysym | wpeview/src/main/cpp/Common/AndroidKeyMap.h:242-317 | every special keysym lies in the 0xff00-0xffff function-key block |
| KeyMap.AndroidToKeysym | wpeview/src/main/cpp/Common/AndroidKeyMap.h:236-324 | printable ASCII (0x20-0x7f) is its own keysym; otherwise a special key's keysym; otherwise the Unicode value if positive, else 0 |
| KeyMap.SpecialKeysymRoundTrip | wpeview/src/main/cpp/Common/AndroidKeyMap.h:242-317 | the independently written reverse table takes each special keysym back to its key, so no two keys share one |
| KeyMap.SpecialKeysHaveKeycodes | wpeview/src/main/cpp/Common/AndroidKeyMap.h:42-317 | every key with a special keysym also has an XKB keycode |
| KeyMap.SpecialKeysymNotPrintable | wpeview/src/main/cpp/Common/AndroidKeyMap.h:236-324 | for a non-printable character, a special key's keysym is at least 0xff00 |
| KeyMap.AndroidToWpeModifiers | wpeview/src/main/cpp/Common/AndroidKeyMap.h:329-343 | each of the five WPE modifier bits is set iff its Android meta flag is, and no other bit is set |
| KeyMap.ModifiersDistributeOverUnion | wpeview/src/main/cpp/Common/AndroidKeyMap.h:329-343 | the translation of the OR of a and b is the union of the translations of a and b |
| MessagePump.GLibEventsToLooperEvents | wpe/src/main/cpp/Browser/MessagePump.cpp:27-41 | each of IN, OUT, ERR, HUP and NVAL sets exactly its looper flag, and no other bit is set |
| MessagePump.LooperEventsToGLibEvents | wpe/src/main/cpp/Browser/MessagePump.cpp:43-57 | each looper flag sets exactly its GLib flag, and no other bit is set |
| MessagePump.GLibRoundTrip | wpe/src/main/cpp/Browser/MessagePump.cpp:27-57 | GLib → looper → GLib gives back the conditions restricted to IN, OUT, ERR, HUP and NVAL |
| MessagePump.LooperRoundTrip | wpe/src/main/cpp/Browser/MessagePump.cpp:27-57 | looper → GLib → looper gives back the looper events restricted to the five flags |
| MessagePump.Cleared | wpe/src/main/cpp/Browser/MessagePump.cpp:180-182 | same entries, same descriptors and events, every revents 0 |
| MessagePump.FirstEntry | wpe/src/main/cpp/Browser/MessagePump.cpp:192-197 | the index found holds the descriptor and no earlier entry does; n when none does |
| MessagePump.AttachAllKeys | wpe/src/main/cpp/Browser/MessagePump.cpp:179-207 | after attaching, the looper holds exactly the old registrations plus every listed descriptor |
| MessagePump.AttachAllKeepsRegistered | wpe/src/main/cpp/Browser/MessagePump.cpp:185-186 | an already attached descriptor keeps the events it was added with |
| MessagePump.AttachAllUsesFirstEntry | wpe/src/main/cpp/Browser/MessagePump.cpp:185-189 | a newly attached descriptor carries the translated events (plus OUTPUT) of its first entry |
| MessagePump.MessagePump.constructor | wpe/src/main/cpp/Browser/MessagePump.cpp:72-99 | the constructor ends with a prepare: the new pump holds the context's poll list with every revents 0, has attached exactly its descriptors to the looper with their first entry's events, and has no dispatch scheduled |
| MessagePump.MessagePump.Destroy | wpe/src/main/cpp/Browser/MessagePump.cpp:101-125 | the pending dispatch signal is consumed, every attached descriptor leaves the looper, and the buffer is freed with size and capacity 0 |
| MessagePump.MessagePump.OnDispatchSignal | wpe/src/main/cpp/Browser/MessagePump.cpp:81-92 | the dispatch signal is consumed and the pump prepares again: the new poll list with cleared revents, its descriptors attached, the stale ones detached |
| MessagePump.MessagePump.Query | wpe/src/main/cpp/Browser/MessagePump.cpp:172 | the query returns the full list size and writes the entries that fit |
| MessagePump.MessagePump.Prepare | wpe/src/main/cpp/Browser/MessagePump.cpp:162-213 | afterwards the buffer holds the whole list with capacity ≥ size, every revents is 0, the attached set equals the listed descriptors, old registrations keep their events and new ones carry their first entry's events; the looper table is the old one with the new list attached and the stale descriptors removed |
| MessagePump.MessagePump.QueryAll | wpe/src/main/cpp/Browser/MessagePump.cpp:166-177 | the grow-and-query loop ends with capacity ≥ size and the buffer holding exactly the list |
| MessagePump.MessagePump.AttachEntries | wpe/src/main/cpp/Browser/MessagePump.cpp:179-207 | the loop clears every entry, attaches the new descriptors and returns the attached descriptors the list no longer names |
| MessagePump.MessagePump.Detach | wpe/src/main/cpp/Browser/MessagePump.cpp:209-212 | the stale descriptors leave both the looper and the attached set |
| MessagePump.MessagePump.OnFdEvent | wpe/src/main/cpp/Browser/MessagePump.cpp:190-204 | only the first entry with that descriptor gets the translated events, no other entry changes, and a dispatch is scheduled |
| InputConnection.CodePointAt | wpeview/src/main/java/org/wpewebkit/wpeview/WPEInputConnection.java:51 | the value is a code point, and it is supplementary exactly when a surrogate pair starts at that position |
| InputConnection.Encode | wpeview/src/main/java/org/wpewebkit/wpeview/WPEInputConnection.java:50-57 | a code point occupies as many code units as its char count says |
| InputConnection.CodePointsInRange | wpeview/src/main/java/org/wpewebkit/wpeview/WPEInputConnection.java:50-57 | every value the commit loop sends is a code point |
| InputConnection.CodePointsRoundTrip | wpeview/src/main/java/org/wpewebkit/wpeview/WPEInputConnection.java:50-57 | re-encoding what the loop reads gives back the text, lone surrogates included, so no code unit is lost or read twice |
| InputConnection.EncodedScalarsRoundTrip | wpeview/src/main/java/org/wpewebkit/wpeview/WPEInputConnection.java:50-57 | the UTF-16 text of a sequence of scalar values is read back as exactly that sequence |
| InputConnection.ContentCalls | wpeview/src/main/java/org/wpewebkit/wpeview/WPEInputConnection.java:52 | one setInputMethodContent call per code point, in order |
| InputConnection.CommitSendsEachScalarOnce | wpeview/src/main/java/org/wpewebkit/wpeview/WPEInputConnection.java:43-60 | committing the text of a sequence of scalar values sends each value once, in order |
| InputConnection.WPEInputConnection.constructor | wpeview/src/main/java/org/wpewebkit/wpeview/WPEInputConnection.java:37-40 | a new connection has made no calls |
| InputConnection.WPEInputConnection.CommitText | wpeview/src/main/java/org/wpewebkit/wpeview/WPEInputConnection.java:43-60 | a null text sends nothing; otherwise every code point of the text is sent, in order; the result is always true |
| InputConnection.WPEInputConnection.DeleteSurroundingText | wpeview/src/main/java/org/wpewebkit/wpeview/WPEInputConnection.java:63-74 | the units before the cursor are deleted first, then those after it, a non-positive side making no call; the result is true |
| InputConnection.WPEInputConnection.SetComposingText | wpeview/src/main/java/org/wpewebkit/wpeview/WPEInputConnection.java:77-80 | composing text is committed exactly as commitText would |
| InputConnection.WPEInputConnection.FinishComposingText | wpeview/src/main/java/org/wpewebkit/wpeview/WPEInputConnection.java:83-86 | always accepted |
| InputConnection.WPEInputConnection.DeleteSurroundingTextInCodePoints | wpeview/src/main/java/org/wpewebkit/wpeview/WPEInputConnection.java:89-93 | the same calls as deleteSurroundingText with the lengths unchanged |
| InputConnection.WPEInputConnection.SendKeyEvent | wpeview/src/main/java/org/wpewebkit/wpeview/WPEInputConnection.java:96-100 | the key event is forwarded once and accepted |
| CookieManager.PolicyValue | wpe/src/main/java/com/wpe/wpeview/WPECookieManager.java:31-40 | each policy is passed to native code as a value in 0..2 |
| CookieManager.PolicyValueRoundTrip | wpe/src/main/java/com/wpe/wpeview/WPECookieManager.java:31-40 | the policy values are distinct: exactly 0, 1 and 2 decode, and decoding inverts the encoding |
| CookieManager.PolicyFor | wpe/src/main/java/com/wpe/wpeview/WPECookieManager.java:61-84 | never when cookies are off; always when both switches are on; no-third-party when only cookies are on |
| CookieManager.LastPolicyAppend | wpe/src/main/java/com/wpe/wpeview/WPECookieManager.java:70-85 | the policy native code last received is the one in the latest policy call |
| CookieManager.WPECookieManager.constructor | wpe/src/main/java/com/wpe/wpeview/WPECookieManager.java:46-49 | cookies accepted, third-party cookies refused, nothing sent to native code |
| CookieManager.WPECookieManager.SetAcceptCookie | wpe/src/main/java/com/wpe/wpeview/WPECookieManager.java:55-71 | an unchanged value sends nothing; a change stores it and sends the policy of the new pair of switches, so native code always holds the policy of the current switches |
| CookieManager.WPECookieManager.SetAcceptThirdPartyCookies | wpe/src/main/java/com/wpe/wpeview/WPECookieManager.java:75-87 | the switch is stored; a policy is sent only when it changed while cookies are accepted, and it is the policy of the current switches |
| CookieManager.WPECookieManager.RemoveAllCookies | wpe/src/main/java/com/wpe/wpeview/WPECookieManager.java:89 | exactly one remove-all call reaches native code, carrying the callback |
| ResultCallbacks.CallbackHolder.constructor | wpe/src/main/java/com/wpe/wpeview/WPECookieManager.java:101 | the holder keeps the callback and has posted nothing |
| ResultCallbacks.CallbackHolder.CommitResult | wpe/src/main/java/com/wpe/wpeview/WPECookieManager.java:103-108 | without a callback nothing is posted; with one, the result is posted to it once |
| WebsiteData.BitIndexInverse | wpe/src/main/java/com/wpe/wpe/WKWebsiteDataManager.java:13-28 | each kind has its own bit index |
| WebsiteData.DeclaredIndex | wpe/src/main/java/com/wpe/wpe/WKWebsiteDataManager.java:13-28 | the declared index agrees with WebKit's bit for every kind except HstsCache |
| WebsiteData.ValueFormula | wpe/src/main/java/com/wpe/wpe/WKWebsiteDataManager.java:13-34 | with WebKit's bits, a kind other than All is the single bit of its index, and All is the mask of bits 0 to 13 |
| WebsiteData.ValueAsWritten | wpe/src/main/java/com/wpe/wpe/WKWebsiteDataManager.java:34 | as declared, every kind has WebKit's value except HstsCache, whose value is that of Cookies |
| WebsiteData.ValueAsWrittenFormula | wpe/src/main/java/com/wpe/wpe/WKWebsiteDataManager.java:13-34 | as declared, a kind's value is the single bit of its declared index (All: bits 0 to 13) |
| WebsiteData.HstsCacheClearsCookies | wpe/src/main/java/com/wpe/wpe/WKWebsiteDataManager.java:22-34 | as declared, HstsCache and Cookies have the same value, and no single kind has bit 10 |
| WebsiteData.ValuesAreDistinctBits | wpe/src/main/java/com/wpe/wpe/WKWebsiteDataManager.java:34 | with WebKit's bits, distinct kinds have distinct values, single kinds are disjoint non-zero bits, and each lies within All |
| WebsiteData.ClearFlagsAsWritten | wpe/src/main/java/com/wpe/wpe/WKWebsiteDataManager.java:43 | the mask `clear` sends, ORed from the declared values, has no bit above 13 |
| WebsiteData.ClearFlags | wpe/src/main/java/com/wpe/wpe/WKWebsiteDataManager.java:43 | the mask ORed from WebKit's bits has no bit above 13 |
| WebsiteData.FlagsOverBits | wpe/src/main/java/com/wpe/wpe/WKWebsiteDataManager.java:43 | with WebKit's bits, the ORed mask has a kind's bit exactly when that kind or All is being cleared |
| WebsiteData.FlagsOverBitsAsWritten | wpe/src/main/java/com/wpe/wpe/WKWebsiteDataManager.java:43 | with the declared values, the ORed mask has a kind's bit exactly when that kind (not HstsCache) is cleared, when the kind is Cookies and HstsCache is cleared, or when All is cleared |
| WebsiteData.FlagsOverNothing | wpe/src/main/java/com/wpe/wpe/WKWebsiteDataManager.java:43 | ORing no values gives 0 |
| WebsiteData.FlagsOverOne | wpe/src/main/java/com/wpe/wpe/WKWebsiteDataManager.java:43 | ORing over a single requested kind gives that kind's value when the order lists it, and 0 otherwise |
| WebsiteData.FlagsOverInRange | wpe/src/main/java/com/wpe/wpe/WKWebsiteDataManager.java:43 | the ORed mask has no bit above 13 |
| WebsiteData.FlagsOverZero | wpe/src/main/java/com/wpe/wpe/WKWebsiteDataManager.java:43 | over an order that lists every kind, the ORed mask is 0 exactly when nothing is requested |
| WebsiteData.ClearFlagsMeaning | wpe/src/main/java/com/wpe/wpe/WKWebsiteDataManager.java:43-44 | the intended mask names exactly the kinds asked for (all of them when All is asked for) and is 0 exactly when nothing is asked for |
| WebsiteData.ClearFlagsAsWrittenMeaning | wpe/src/main/java/com/wpe/wpe/WKWebsiteDataManager.java:43-44 | the mask sent has each kind other than Cookies and HstsCache exactly when it or All is asked for; the Cookies bit when Cookies, HstsCache or All is asked for; WebKit's HstsCache bit only when All is asked for; and it is 0 exactly when nothing is asked for |
| WebsiteData.ClearHstsCacheOnly | wpe/src/main/java/com/wpe/wpe/WKWebsiteDataManager.java:22-47 | clearing only the HSTS cache sends 0x100 (Cookies), where WebKit's HSTS bit is 0x400 |
| WebsiteData.WKWebsiteDataManager.constructor | wpe/src/main/java/com/wpe/wpe/WKWebsiteDataManager.java:40 | the manager keeps its native pointer and has sent nothing |
| WebsiteData.WKWebsiteDataManager.Clear | wpe/src/main/java/com/wpe/wpe/WKWebsiteDataManager.java:42-47 | nothing is sent for an empty set; otherwise one clear call carries the pointer, the mask ORed from the declared values, and the callback |
| JniSignatures.PrimitiveOfLetter | wpe/src/main/cpp/Common/JNI/JNITypes.h:98-105 | each primitive has its own letter, and a letter names at most one primitive |
| JniSignatures.Signatures | wpe/src/main/cpp/Common/JNI/JNITypes.h:138 | one signature per parameter type |
| JniSignatures.PrimitiveLetter | wpe/src/main/cpp/Common/JNI/JNITypes.h:98-105 | a primitive's signature is one of the letters ZBCSIJFD, never `L`, `[`, `V` or a parenthesis |
| JniSignatures.ComponentSignature | wpe/src/main/cpp/Common/JNI/JNITypes.h:82-109 | a primitive gives its one letter; a class gives `L`, its name and `;` |
| JniSignatures.TypeSignature | wpe/src/main/cpp/Common/JNI/JNITypes.h:82-109 | a type signature is non-empty, never starts with `V` or `)`, starts with `[` exactly for an array type, and an array's is `[` followed by its component's |
| JniSignatures.ReturnSignature | wpe/src/main/cpp/Common/JNI/JNITypes.h:73-79 | the return signature is `V` exactly for void |
| JniSignatures.SignatureBuilder | wpe/src/main/cpp/Common/JNI/JNITypes.h:125-135 | the right-nested pairwise builder yields the plain concatenation of its strings |
| JniSignatures.FunctionSignature | wpe/src/main/cpp/Common/JNI/JNITypes.h:113-140 | a function signature is "(", the parameter signatures in order, ")" and the return signature |
| JniSignatures.ParseClassNameOf | wpe/src/main/cpp/Common/JNI/JNITypes.h:43-49 | an object type's class name is recovered up to its closing ';' |
| JniSignatures.ParseComponentOf | wpe/src/main/cpp/Common/JNI/JNITypes.h:43-109 | a component type (primitive or class) is recovered from its signature |
| JniSignatures.ParseTypeOf | wpe/src/main/cpp/Common/JNI/JNITypes.h:43-109 | a type signature, array or not, determines its type |
| JniSignatures.ParseParamsOf | wpe/src/main/cpp/Common/JNI/JNITypes.h:138 | the concatenated parameter signatures determine the parameter list |
| JniSignatures.ParseReturnOf | wpe/src/main/cpp/Common/JNI/JNITypes.h:73-79 | a return signature, void included, determines the return type |
| JniSignatures.FunctionSignatureRoundTrip | wpe/src/main/cpp/Common/JNI/JNITypes.h:113-140 | reading a printed function signature gives back its parameters and return type |
| JniSignatures.FunctionSignatureInjective | wpe/src/main/cpp/Common/JNI/JNITypes.h:113-140 | two function types with the same signature are the same function type |
| BrowserTabs.IndexOfFirst | tools/minibrowser/src/main/java/org/wpewebkit/tools/minibrowser/BrowserViewModel.kt:92 | the position of the first tab with the id, or -1 exactly when no tab has it |
| BrowserTabs.FindTab | tools/minibrowser/src/main/java/org/wpewebkit/tools/minibrowser/BrowserViewModel.kt:116-118 | nothing exactly when no tab has the id; otherwise the first tab that has it |
| BrowserTabs.GetTab | tools/minibrowser/src/main/java/org/wpewebkit/tools/minibrowser/BrowserViewModel.kt:123-125 | fails with NoSuchElement exactly when findTab finds nothing; otherwise the tab findTab finds |
| BrowserTabs.SelectedTab | tools/minibrowser/src/main/java/org/wpewebkit/tools/minibrowser/BrowserViewModel.kt:37-38 | nothing without a selected id; otherwise the first tab with the selected id, if any |
| BrowserTabs.IsSelected | tools/minibrowser/src/main/java/org/wpewebkit/tools/minibrowser/BrowserViewModel.kt:137-139 | true exactly when the selected id is the given one |
| BrowserTabs.AddTab | tools/minibrowser/src/main/java/org/wpewebkit/tools/minibrowser/BrowserViewModel.kt:51-58 | the tab is appended, and selected only when asked to be |
| BrowserTabs.AddTabThenFind | tools/minibrowser/src/main/java/org/wpewebkit/tools/minibrowser/BrowserViewModel.kt:51-58 | after adding, the id is found: the new tab if the id was new, the earlier tab otherwise; a selected new tab is the selected tab |
| BrowserTabs.SelectTab | tools/minibrowser/src/main/java/org/wpewebkit/tools/minibrowser/BrowserViewModel.kt:72-76 | the tabs stay and the id becomes the selection |
| BrowserTabs.CloseAllTabs | tools/minibrowser/src/main/java/org/wpewebkit/tools/minibrowser/BrowserViewModel.kt:107-111 | no tabs and no selection |
| BrowserTabs.WithoutMembers | tools/minibrowser/src/main/java/org/wpewebkit/tools/minibrowser/BrowserViewModel.kt:84 | the remaining tabs are exactly the tabs whose id differs |
| BrowserTabs.WithoutConcat | tools/minibrowser/src/main/java/org/wpewebkit/tools/minibrowser/BrowserViewModel.kt:84 | filtering distributes over concatenation |
| BrowserTabs.WithoutAbsent | tools/minibrowser/src/main/java/org/wpewebkit/tools/minibrowser/BrowserViewModel.kt:84 | filtering out an id no tab has keeps the list |
| BrowserTabs.RemoveTab | tools/minibrowser/src/main/java/org/wpewebkit/tools/minibrowser/BrowserViewModel.kt:82-102 | every tab with the id goes; an unselected id keeps the selection; removing the selected id selects nothing when no tab is left or the id was not in the list |
| BrowserTabs.RemovalKeepsPrefix | tools/minibrowser/src/main/java/org/wpewebkit/tools/minibrowser/BrowserViewModel.kt:84-92 | the tabs before the first removed one stay in place |
| BrowserTabs.RemoveSelectedTabSelectsNeighbour | tools/minibrowser/src/main/java/org/wpewebkit/tools/minibrowser/BrowserViewModel.kt:85-96 | removing the selected tab selects the tab that followed it, or the one before it when it was last, and never the removed id |
| BrowserTabs.TabInListIsFound | tools/minibrowser/src/main/java/org/wpewebkit/tools/minibrowser/BrowserViewModel.kt:116-118 | every tab in the list can be found by its id |
| BrowserTabs.SelectionStaysValid | tools/minibrowser/src/main/java/org/wpewebkit/tools/minibrowser/BrowserViewModel.kt:33-111 | a selection that names an existing tab still does after adding, removing or closing all tabs |
| Navigation.Navigated | tools/minibrowser/src/main/java/org/wpewebkit/tools/minibrowser/navigation/BrowserNavigationState.kt:140-147 | a top-level route becomes current with every stack unchanged; any other route is pushed on the current stack only, and the set of top-level routes never changes |
| Navigation.WentBack | tools/minibrowser/src/main/java/org/wpewebkit/tools/minibrowser/navigation/BrowserNavigationState.kt:152-163 | a missing current stack fails with the stack-not-found error; otherwise either the current route is popped or, at the base of the stack, the start route becomes current with the stacks unchanged |
| Navigation.AtBaseIffRootOnly | tools/minibrowser/src/main/java/org/wpewebkit/tools/minibrowser/navigation/BrowserNavigationState.kt:155-158 | in a well-formed state the current route is the top-level route exactly when its stack holds only that route |
| Navigation.NavigationKeepsWellFormed | tools/minibrowser/src/main/java/org/wpewebkit/tools/minibrowser/navigation/BrowserNavigationState.kt:140-163 | navigating and going back keep every stack rooted at its own route, and going back never fails in such a state |
| Navigation.NavigateThenGoBack | tools/minibrowser/src/main/java/org/wpewebkit/tools/minibrowser/navigation/BrowserNavigationState.kt:140-163 | pushing a route and going back restores the state |
| Navigation.SwitchThenGoBack | tools/minibrowser/src/main/java/org/wpewebkit/tools/minibrowser/navigation/BrowserNavigationState.kt:140-163 | switching to a top-level route at its base and going back lands on the start route, stacks unchanged |
| Navigation.BrowserNavigationState.constructor | tools/minibrowser/src/main/java/org/wpewebkit/tools/minibrowser/navigation/BrowserNavigationState.kt:44-62 | the start route is current and each top-level route gets a stack holding only itself |
| Navigation.BrowserNavigationState.RoutesInUse | tools/minibrowser/src/main/java/org/wpewebkit/tools/minibrowser/navigation/BrowserNavigationState.kt:124-129 | the start route first, then the current route if it is a different one |
| Navigation.BrowserNavigator.constructor | tools/minibrowser/src/main/java/org/wpewebkit/tools/minibrowser/navigation/BrowserNavigationState.kt:135 | the navigator works on the given state |
| Navigation.BrowserNavigator.Navigate | tools/minibrowser/src/main/java/org/wpewebkit/tools/minibrowser/navigation/BrowserNavigationState.kt:140-147 | the new state is the one Navigated describes |
| Navigation.BrowserNavigator.GoBack | tools/minibrowser/src/main/java/org/wpewebkit/tools/minibrowser/navigation/BrowserNavigationState.kt:152-163 | the new state is the one WentBack describes, and a failure changes nothing |
| Bootstrap.Split | tools/scripts/bootstrap.py:225 | at least one part, none holding a dot |
| Bootstrap.JoinSplit | tools/scripts/bootstrap.py:225-230 | joining the parts with dots gives back the name |
| Bootstrap.SplitAppend | tools/scripts/bootstrap.py:225 | splitting at a dot splits the two halves separately |
| Bootstrap.JoinAppend | tools/scripts/bootstrap.py:228-230 | joining concatenated part lists puts one dot between the two joins |
| Bootstrap.AdjustSoname | tools/scripts/bootstrap.py:221-230 | a name ending in .so is kept; one with at most two dot-separated parts fails the assertion; a name whose version follows neither the last-but-one nor the last-but-two part yields no name |
| Bootstrap.OneVersionComponent | tools/scripts/bootstrap.py:227-228 | x.so.N becomes x_N.so |
| Bootstrap.TwoVersionComponents | tools/scripts/bootstrap.py:229-230 | x.so.N.M becomes x_N_M.so |
| Bootstrap.AdjustSonameKeepsLength | tools/scripts/bootstrap.py:221-230 | an adjusted name is exactly as long as the original, except for a name that starts with "so." |
| Bootstrap.ReplaceKeepsLength | tools/scripts/bootstrap.py:255 | replacing a pattern with one of the same length keeps the contents' length |
| Bootstrap.ReplaceBySelf | tools/scripts/bootstrap.py:255 | replacing a pattern with itself changes nothing |
| Bootstrap.ApplyReplacementsKeepsLength | tools/scripts/bootstrap.py:254-255 | same-length pairs applied in order keep the file's length |
| Bootstrap.ReplaceSonameValues | tools/scripts/bootstrap.py:250-258 | the loop applies every pair in list order, and keeps the length when the pairs do |
| Bootstrap.NewReplacementsErrPersists | tools/scripts/bootstrap.py:283-289 | once a soname makes the script fail, the later ones do not matter |
| Bootstrap.NewReplacementsKeepLength | tools/scripts/bootstrap.py:283-292 | each pair gathered changes the name, and keeps its length unless the soname starts with "so." |
| Bootstrap.BareSoNameFailsTheCheck | tools/scripts/bootstrap.py:283-292 | the soname "so.1.2" is adjusted to "_1_2.so", whose length differs, so the assertion fails |
| Bootstrap.AndroidAbi | tools/scripts/bootstrap.py:341-350 | exactly arm64, armv7, x86 and x86_64 map to an ABI directory; any other architecture fails, naming the architecture |
| Bootstrap.AndroidAbiInverse | tools/scripts/bootstrap.py:341-348 | distinct architectures get distinct ABI directories |
| Bootstrap.Elements | tools/scripts/bootstrap.py:317-318 | the set holds exactly the names in the list |
| Bootstrap.ProvidedAndNeeded | tools/scripts/bootstrap.py:311-318 | a name is provided when some library has it as soname, and needed when it is a base need or some library needs it |
| Bootstrap.ResolveDeps | tools/scripts/bootstrap.py:311-334 | the missing libraries are the needed ones not provided, and the unused ones are those provided but not needed |
| Bootstrap.ReportCoversAll | tools/scripts/bootstrap.py:321-329 | every needed library is provided or reported missing, every provided one is needed or reported unused, and the two reports are disjoint |
| Bootstrap.SameLengthsConcat | tools/scripts/bootstrap.py:291-292 | all pairs keep their lengths exactly when both halves' pairs do |
| Bootstrap.FindLengthMismatch | tools/scripts/bootstrap.py:291-292 | nothing is found exactly when every pair keeps its length; a found pair is in the list and changes length |
| Bootstrap.Installer.constructor | tools/scripts/bootstrap.py:92-95 | the installer starts with the two fixed replacements, which keep their lengths |
| Bootstrap.AdjustSonames | tools/scripts/bootstrap.py:283-289 | the loop gathers exactly the pairs of the reference definition, fails with its error, and returns each library's adjusted name |
| Bootstrap.Installer.RecordReplacements | tools/scripts/bootstrap.py:276-292 | each library's adjusted name is returned; changed names are recorded in order; a failed adjustment or a pair that changes length fails and records nothing |
| Toplevel.Mask | wpeview/src/main/cpp/Common/WPEToplevelAndroid.cpp:79-100 | the mask is below 8 and has a flag's bit exactly when the flag is in the state |
| Toplevel.MaskInjective | wpeview/src/main/cpp/Common/WPEToplevelAndroid.cpp:84-103 | comparing masks compares states, so the source's mask comparison is a state comparison |
| Toplevel.SetFlag | wpeview/src/main/cpp/Common/WPEToplevelAndroid.cpp:75-106 | only the requested flag changes, it ends up on exactly when requested, and the state is reported exactly when it changed, as the new state |
| Toplevel.Constructed | wpeview/src/main/cpp/Common/WPEToplevelAndroid.cpp:40-51 | the toplevel reports the state holding only Active (mask 4) |
| Toplevel.SetFullscreen | wpeview/src/main/cpp/Common/WPEToplevelAndroid.cpp:71-88 | only Fullscreen changes, it is on exactly when requested, a report is made exactly on a change, and the result is true |
| Toplevel.SetMaximized | wpeview/src/main/cpp/Common/WPEToplevelAndroid.cpp:90-107 | only Maximized changes, it is on exactly when requested, a report is made exactly on a change, and the result is true |
| Toplevel.SetMinimized | wpeview/src/main/cpp/Common/WPEToplevelAndroid.cpp:109-113 | accepted with no change and no report |
| Toplevel.SetFlagIdempotent | wpeview/src/main/cpp/Common/WPEToplevelAndroid.cpp:75-87 | repeating a request reports nothing and changes nothing |
| Toplevel.ReportedIffToggled | wpeview/src/main/cpp/Common/WPEToplevelAndroid.cpp:84-85 | a report is made exactly when the request asks for the opposite of the flag's current value |
| Toplevel.SetFlagsCommute | wpeview/src/main/cpp/Common/WPEToplevelAndroid.cpp:71-107 | fullscreen and maximized requests commute |
| PowerMonitor.IsThrottling | wpeview/src/main/cpp/Runtime/WPEAndroidPowerProfileMonitor.cpp:76 | throttling exactly from the severe thermal status on |
| PowerMonitor.WPEAndroidPowerMonitor.constructor | wpeview/src/main/cpp/Runtime/WPEAndroidPowerProfileMonitor.cpp:140-169 | both flags start off; the manager is kept only with the thermal API; the listener is registered exactly when the API is there, the manager was acquired and registration returned 0, and only then does the current status set throttling |
| PowerMonitor.WPEAndroidPowerMonitor.PowerSaverEnabled | wpeview/src/main/cpp/Runtime/WPEAndroidPowerProfileMonitor.cpp:125-138 | power saving is on exactly when battery saver is on or the device is throttling |
| PowerMonitor.WPEAndroidPowerMonitor.StoreBatterySaver | wpeview/src/main/cpp/Runtime/WPEAndroidPowerProfileMonitor.cpp:206-217 | the battery flag takes the value, and one notification is scheduled exactly when it changed |
| PowerMonitor.WPEAndroidPowerMonitor.StoreThermalThrottling | wpeview/src/main/cpp/Runtime/WPEAndroidPowerProfileMonitor.cpp:227-239 | the throttling flag takes the value, and one notification is scheduled exactly when it changed |
| PowerMonitor.WPEAndroidPowerMonitor.OnThermalStatusChanged | wpeview/src/main/cpp/Runtime/WPEAndroidPowerProfileMonitor.cpp:73-91 | the throttling flag follows the new status, and one notification is scheduled exactly when the flag changed |
| PowerMonitor.Registry.constructor | wpeview/src/main/cpp/Runtime/WPEAndroidPowerProfileMonitor.cpp:53 | no monitor is reachable before one is created |
| PowerMonitor.Registry.Create | wpeview/src/main/cpp/Runtime/WPEAndroidPowerProfileMonitor.cpp:140-169 | the new monitor becomes the singleton with battery saver off and nothing scheduled; it keeps the thermal manager only with the thermal API, listens exactly when a manager was acquired and registration returned 0, throttles exactly when listening and the current status is severe or worse, and reports power saving exactly when throttling |
| PowerMonitor.Registry.SetBatterySaver | wpeview/src/main/cpp/Runtime/WPEAndroidPowerProfileMonitor.cpp:199-218 | ignored without a singleton; otherwise the battery flag takes the value, throttling, the thermal manager and the listener are untouched, power saving follows both, and one notification is scheduled exactly on a change |
| PowerMonitor.Registry.SetThermalThrottling | wpeview/src/main/cpp/Runtime/WPEAndroidPowerProfileMonitor.cpp:220-240 | ignored without a singleton; otherwise the throttling flag takes the value, battery saver, the thermal manager and the listener are untouched, power saving follows both, and one notification is scheduled exactly on a change |
| PowerMonitor.Registry.Dispose | wpeview/src/main/cpp/Runtime/WPEAndroidPowerProfileMonitor.cpp:171-188 | with the thermal API and a manager, the listener is unregistered and the manager released; the global is cleared only when it names this monitor; the flags and notifications stay |
| InputMethodContext.WPEInputMethodContextAndroid.constructor | wpeview/src/main/cpp/Common/WPEInputMethodContextAndroid.cpp:113-122 | a new context belongs to its view, has no callbacks and has done nothing |
| InputMethodContext.WPEInputMethodContextAndroid.PreeditString | wpeview/src/main/cpp/Common/WPEInputMethodContextAndroid.cpp:66-76 | never any preedit: empty text, no underlines, cursor offset 0 |
| InputMethodContext.WPEInputMethodContextAndroid.FocusIn | wpeview/src/main/cpp/Common/WPEInputMethodContextAndroid.cpp:78-86 | the focus-in callback runs once with the user data when there is one; otherwise nothing happens |
| InputMethodContext.WPEInputMethodContextAndroid.FocusOut | wpeview/src/main/cpp/Common/WPEInputMethodContextAndroid.cpp:88-94 | the focus-out callback runs once with the user data when there is one; otherwise nothing happens |
| InputMethodContext.WPEInputMethodContextAndroid.SetFocusCallbacks | wpeview/src/main/cpp/Common/WPEInputMethodContextAndroid.cpp:150-161 | the three values replace the old ones |
| InputMethodContext.WPEInputMethodContextAndroid.DeleteSurroundingText | wpeview/src/main/cpp/Common/WPEInputMethodContextAndroid.cpp:198-203 | the delete-surrounding signal is emitted once with the offset and count |
| InputMethodContext.ContextRegistry.constructor | wpeview/src/main/cpp/Common/WPEInputMethodContextAndroid.cpp:26-34 | both maps start empty, which satisfies the registry invariant |
| InputMethodContext.ContextRegistry.GetForView | wpeview/src/main/cpp/Common/WPEInputMethodContextAndroid.cpp:142-148 | the context filed under the view exactly when there is one, else null |
| InputMethodContext.ContextRegistry.New | wpeview/src/main/cpp/Common/WPEInputMethodContextAndroid.cpp:118-140 | the new context replaces the view's entry, takes over the view's pending callbacks (or none), and the pending entry is removed; the invariant holds |
| InputMethodContext.ContextRegistry.SetFocusCallbacksForView | wpeview/src/main/cpp/Common/WPEInputMethodContextAndroid.cpp:163-179 | a null view changes nothing; a view with a context gets the callbacks at once and its recorded events are unchanged; otherwise they are stored as pending for the view; the invariant holds |
| InputMethodContext.ContextRegistry.CommitText | wpeview/src/main/cpp/Common/WPEInputMethodContextAndroid.cpp:181-196 | the committed signal is emitted with the text, and a mismatch is reported exactly when the context is not the one filed under its view |
| InputMethodContext.ContextRegistry.DisposeAsWritten | wpeview/src/main/cpp/Common/WPEInputMethodContextAndroid.cpp:55-64 | as written, the view's entry is erased whatever context it holds |
| InputMethodContext.ContextRegistry.Dispose | wpeview/src/main/cpp/Common/WPEInputMethodContextAndroid.cpp:55-64 | the view's entry is erased only while it holds this context, every other context stays reachable from its view, and no entry appears |
| InputMethodContext.StaleDisposeLosesLiveContext | wpeview/src/main/cpp/Common/WPEInputMethodContextAndroid.cpp:55-64 | after two contexts for view 7, disposing the older one as written leaves the view with no context, while the corrected disposal keeps the newer one |
| ProcessKind.LibraryNames | wpeview/src/main/java/org/wpewebkit/WPEApplication.java:30-57 | the main process loads only the runtime; every service process loads the service library last, the web process after gstreamer and the WebDriver process after the WebDriver library |
| ProcessKind.IndexOf | wpeview/src/main/java/org/wpewebkit/WPEApplication.java:61 | -1 exactly when the name has no ':'; otherwise the position of the first ':' |
| ProcessKind.RemoveDigits | wpeview/src/main/java/org/wpewebkit/WPEApplication.java:65 | no digit is left and nothing is added |
| ProcessKind.RemoveDigitsConcat | wpeview/src/main/java/org/wpewebkit/WPEApplication.java:65 | removing digits distributes over concatenation |
| ProcessKind.RemoveDigitsOf | wpeview/src/main/java/org/wpewebkit/WPEApplication.java:65 | a name without digits is unchanged and a run of digits vanishes |
| ProcessKind.GetProcessKind | wpeview/src/main/java/org/wpewebkit/WPEApplication.java:59-76 | the main process exactly when the name has no ':'; otherwise the digit-stripped suffix after the first ':' names the service, and any other suffix fails with an exception naming the process |
| ProcessKind.FirstColonAfterPackage | wpeview/src/main/java/org/wpewebkit/WPEApplication.java:61 | the first ':' of a service process name is the one after the package |
| ProcessKind.ServiceNameHasNoDigits | wpeview/src/main/java/org/wpewebkit/WPEApplication.java:65-72 | the three service names are left alone by digit removal |
| ProcessKind.ServiceProcessNameRoundTrip | wpeview/src/main/java/org/wpewebkit/WPEApplication.java:59-76 | every service kind is recovered from the name of its process, whatever number the process carries |
| Settings.DigitsEnd | wpe/src/main/java/org/wpewebkit/wpe/WKSettings.java:35 | the end of the run of digits starting at a position: every unit before it is a digit and the one at it is not |
| Settings.NumberEnd | wpe/src/main/java/org/wpewebkit/wpe/WKSettings.java:35 | a number starts exactly at a digit; it ends after a lone 0, and otherwise after its run of digits |
| Settings.DefaultOsVersionIsAVersion | wpe/src/main/java/org/wpewebkit/wpe/WKSettings.java:31-49 | the default version 12.0.0 matches the version pattern |
| Settings.NewMatcher | wpe/src/main/java/org/wpewebkit/wpe/WKSettings.java:41 | a new matcher has not attempted a match |
| Settings.Group | wpe/src/main/java/org/wpewebkit/wpe/WKSettings.java:42 | asking a matcher that has not attempted a match for a group throws IllegalStateException; a group is returned exactly when a match exists and the group number is in range |
| Settings.OsVersionAsWritten | wpe/src/main/java/org/wpewebkit/wpe/WKSettings.java:37-50 | as written, the version is always the default 12.0.0, whatever the release, and it matches the version pattern |
| Settings.OsVersionAsWrittenDropsAValidRelease | wpe/src/main/java/org/wpewebkit/wpe/WKSettings.java:37-50 | the release 14.1.0 matches the pattern, yet the version as written is not 14.1.0 |
| Settings.OsVersion | wpe/src/main/java/org/wpewebkit/wpe/WKSettings.java:37-50 | the version always matches the pattern; it is the release exactly when the release matches, and the default otherwise |
| Settings.DefaultUserAgent | wpe/src/main/java/org/wpewebkit/wpe/WKSettings.java:52-54 | the user agent is the fixed head, the OS version and the fixed tail, in that order |
| Settings.WKSettings.constructor | wpe/src/main/java/org/wpewebkit/wpe/WKSettings.java:63-68 | the user agent is the default one built from the version as written, so it always names Android 12.0.0; media playback requires a gesture, the other switches are off, and native code received exactly those two settings |
| Settings.WKSettings.SetUserAgentString | wpe/src/main/java/org/wpewebkit/wpe/WKSettings.java:72-80 | null or empty selects the default user agent; the new agent is sent to native code exactly when it differs from the current one |
| Settings.WKSettings.SetMediaPlaybackRequiresUserGesture | wpe/src/main/java/org/wpewebkit/wpe/WKSettings.java:84-89 | the switch takes the value, and native code hears of it exactly when it changed |
| Settings.WKSettings.SetAllowUniversalAccessFromFileURLs | wpe/src/main/java/org/wpewebkit/wpe/WKSettings.java:93-98 | the switch takes the value, and native code hears of it exactly when it changed |
| Settings.WKSettings.SetAllowFileAccessFromFileURLs | wpe/src/main/java/org/wpewebkit/wpe/WKSettings.java:102-107 | the switch takes the value, and native code hears of it exactly when it changed |
| Settings.WKSettings.SetDeveloperExtrasEnabled | wpe/src/main/java/org/wpewebkit/wpe/WKSettings.java:111-116 | the switch takes the value, and native code hears of it exactly when it changed |
| Settings.SetUserAgentTwice | wpe/src/main/java/org/wpewebkit/wpe/WKSettings.java:72-80 | setting the same user agent twice reaches native code at most once |

## Left out

- The rest of the web view is not modelled: loading, history navigation, zoom and estimated progress, input-method glue, and the JNI registration of native methods. Zoom and progress are floating-point code.
- `nativeSurfaceChanged` also dispatches a logical size to WPE, the physical size divided by the device scale in floating point; that size is not modelled.
- Touch coordinates are rounded floats and are not modelled. Touch events keep their type, time and point id.
- `CreateHandler` and `OnReceivedSslError` take GLib's URI parser as the `hostOf` parameter; the parser itself is not modelled.
- Android's own `SslError` constructor checks that each code is in range; that check is not modelled, and the codes are only proved to be in range.
- Work that the web view posts to the main thread is modelled as running at once, in call order.
- Script dialogs: what the view client answers is a parameter. Building the Android dialog is modelled only by which buttons and text field it has.
- Renderer buffers: GObject reference counting is not modelled. The renderer tracks which buffers are pending, current and in front, not how many references each holds.
- Renderer: the older queue variant under the browser directory, and the separate transaction wrapper, are not part of this model.
- Message pump: GLib's main-context calls (acquire, check, dispatch) and the looper thread are foreign code. The model keeps only the poll list GLib reports and the looper's table of attached descriptors.
- Message pump: the eventfd that wakes the looper for dispatch is modelled by a flag saying a dispatch was signalled.
- The input connection calls the web view's two-argument content deletion as written in the connection. The single-argument variant elsewhere in the tree is not modelled.
- Cookie and website-data managers: the getters and the singleton accessor are not modelled. The Android `Handler` that posts results is modelled by the log of results posted.
- Website data: the Java `EnumSet` is a Dafny set, and the stream reduction is an OR over the declaration order.
- WebsiteData.FlagsOverBits: states the meaning of the mask for WebKit's bits, the intended values. The values as declared are covered by `FlagsOverBitsAsWritten` and `ClearFlagsAsWrittenMeaning`.
- Bootstrap: downloading, unpacking, copying files, running `readelf` and the cerbero build are I/O. The model receives the sonames and needed lists they would yield.
- Bootstrap: strings stand for the UTF-8 bytes the script replaces; names are assumed to be ASCII.
- Bootstrap.Installer.RecordReplacements: when the script raises midway through a library list, the pairs recorded before the exception are dropped in the model. The script would keep them, but the run ends there anyway.
- Bootstrap.ResolveDeps: the script updates its base needed-set in place, so a second call would start from the enlarged set. The model starts each call from the set it is given.
- Toplevel: the toplevel state is a set of flags standing for the bit mask; `Mask` relates the two. `set_title`, `get_screen`, `resize` and the preferred buffer formats only log or forward to WPE and are not modelled.
- Power monitor: atomic loads and stores are plain field accesses. The main-loop notification is counted, not run. The Java `WPEPowerMonitor` broadcast receiver is not modelled.
- Navigation: navigation keys are numbers compared by identity. The Compose remembering and entry decoration (`toDecoratedEntries`) are UI code.
- Tab list: `createTab` builds a tab from an Android context and then calls `addTab`, which is modelled. `tabCount` is the length of the list.
- Input-method context: `reset` does nothing and is not modelled. The error log of `commit_text` is the `mismatch` result, and callbacks and signals are recorded as events. GObject construction and disposal chaining are not modelled.
- Process kind: loading the libraries and registering the activity observer are Android calls.
- Settings: `DEFAULT_USER_AGENT` is a static field computed once, from `getOsVersion` as written. The model computes it per instance, with the Android release as a parameter that the version as written ignores.
- Settings getters return their fields and carry no contract of their own.
- JNI signatures: only the string construction is modelled. The class hierarchy declared by the macros and the C++ type machinery are not.
- Auxiliary processes: the enumeration of process types is not part of this model. The container is built for a given number of types.

## Findings

| source | as written | input that shows it | evidently intended | confidence | as-written member | corrected member |
|---|---|---|---|---|---|---|
| wpe/src/main/java/com/wpe/wpe/WKWebsiteDataManager.java:22-24 | `HstsCache` is declared with index 8, the index of `Cookies`, so clearing the HSTS cache clears cookies and never clears WebKit's HSTS bit (bit 10) | `clear({HstsCache}, cb)` sends the mask 0x100 | index 10, WebKit's HSTS cache bit | not executed | WebsiteData.ClearHstsCacheOnly | WebsiteData.ClearFlagsMeaning |
| wpe/src/main/java/org/wpewebkit/wpe/WKSettings.java:37-50 | `matcher.group(1)` is called without a prior `find()` or `matches()`; Java then throws `IllegalStateException`, which is swallowed, so the OS version is always 12.0.0 | release version "14.1.0" | the release version whenever it starts with a version number | not executed | Settings.OsVersionAsWrittenDropsAValidRelease | Settings.OsVersion |
| wpeview/src/main/cpp/Common/WPEInputMethodContextAndroid.cpp:55-64 | `dispose` erases the view's map entry whatever context it holds, so disposing an older context for a view drops the newer context registered for it | two `new` calls for view 7, then dispose of the first context | erase the entry only while it still holds the context being disposed | not executed | InputMethodContext.StaleDisposeLosesLiveContext | InputMethodContext.ContextRegistry.Dispose |
