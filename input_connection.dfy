/**
 * The input connection between Android input methods and WebKit
 * (wpeview org/wpewebkit/wpeview/WPEInputConnection.java).
 *
 * Text from the input method arrives as Java UTF-16 text and is sent to the
 * web view one Unicode code point at a time; deletions and key events are
 * forwarded as they come. The web view is modelled by the log of calls made
 * on it.
 */
module InputConnection {
  import opened Wrappers

  /** A Java `char`: one UTF-16 code unit. */
  type CodeUnit = u: int | 0 <= u < 0x1_0000

  const MIN_SUPPLEMENTARY_CODE_POINT := 0x1_0000
  const MAX_CODE_POINT := 0x10_FFFF

  predicate IsHighSurrogate(u: int) { 0xD800 <= u <= 0xDBFF }
  predicate IsLowSurrogate(u: int) { 0xDC00 <= u <= 0xDFFF }

  /** A Unicode scalar value: a code point that is not a surrogate. */
  predicate IsScalarValue(cp: int) { 0 <= cp <= MAX_CODE_POINT && !(0xD800 <= cp <= 0xDFFF) }

  /** Whether the code units at `i` form a surrogate pair. */
  predicate StartsPair(text: seq<CodeUnit>, i: nat)
    requires i < |text|
  {
    IsHighSurrogate(text[i]) && i + 1 < |text| && IsLowSurrogate(text[i + 1])
  }

  /**
   * `Character.codePointAt`: a surrogate pair yields the supplementary code
   * point it encodes; any other unit, an unpaired surrogate included,
   * yields itself.
   */
  function CodePointAt(text: seq<CodeUnit>, i: nat): (cp: int)
    requires i < |text|
    ensures 0 <= cp <= MAX_CODE_POINT
    ensures cp >= MIN_SUPPLEMENTARY_CODE_POINT <==> StartsPair(text, i)
  {
    if StartsPair(text, i) then (text[i] - 0xD800) * 0x400 + (text[i + 1] - 0xDC00) + MIN_SUPPLEMENTARY_CODE_POINT
    else text[i]
  }

  /** The number of code units a code point occupies (`Character.charCount`). */
  function CharCount(cp: int): nat
  {
    if cp >= MIN_SUPPLEMENTARY_CODE_POINT then 2 else 1
  }

  /** The code points of a text, read from the front as `commitText` reads them. */
  function CodePoints(text: seq<CodeUnit>): seq<int>
    decreases |text|
  {
    if text == [] then []
    else
      var cp := CodePointAt(text, 0);
      [cp] + CodePoints(text[CharCount(cp)..])
  }

  /** `Character.toChars`: the UTF-16 encoding of a code point. */
  function Encode(cp: int): (units: seq<CodeUnit>)
    requires 0 <= cp <= MAX_CODE_POINT
    ensures |units| == CharCount(cp)
  {
    if cp >= MIN_SUPPLEMENTARY_CODE_POINT then
      [0xD800 + (cp - MIN_SUPPLEMENTARY_CODE_POINT) / 0x400, 0xDC00 + (cp - MIN_SUPPLEMENTARY_CODE_POINT) % 0x400]
    else [cp]
  }

  predicate AllCodePoints(cps: seq<int>)
  {
    forall i :: 0 <= i < |cps| ==> 0 <= cps[i] <= MAX_CODE_POINT
  }

  predicate AllScalarValues(cps: seq<int>)
    ensures AllScalarValues(cps) ==> AllCodePoints(cps)
  {
    forall i :: 0 <= i < |cps| ==> IsScalarValue(cps[i])
  }

  /** Reading the code points of a text from position `i` on. */
  lemma CodePointsFrom(text: seq<CodeUnit>, i: nat)
    requires i < |text|
    ensures i + CharCount(CodePointAt(text, i)) <= |text|
    ensures CodePoints(text[i..]) == [CodePointAt(text, i)] + CodePoints(text[i + CharCount(CodePointAt(text, i))..])
  {
    var rest := text[i..];
    assert rest[0] == text[i];
    assert StartsPair(rest, 0) == StartsPair(text, i);
    assert CodePointAt(rest, 0) == CodePointAt(text, i);
    assert rest[CharCount(CodePointAt(text, i))..] == text[i + CharCount(CodePointAt(text, i))..];
  }

  function EncodeAll(cps: seq<int>): seq<CodeUnit>
    requires AllCodePoints(cps)
  {
    if cps == [] then [] else Encode(cps[0]) + EncodeAll(cps[1..])
  }

  /** Every value `CodePoints` yields is a code point. */
  lemma {:induction false} CodePointsInRange(text: seq<CodeUnit>)
    ensures AllCodePoints(CodePoints(text))
    decreases |text|
  {
    if text != [] {
      var cp := CodePointAt(text, 0);
      CodePointsInRange(text[CharCount(cp)..]);
    }
  }

  /** Re-encoding the code points of any text, lone surrogates included, gives the text back. */
  lemma {:induction false} CodePointsRoundTrip(text: seq<CodeUnit>)
    ensures AllCodePoints(CodePoints(text))
    ensures EncodeAll(CodePoints(text)) == text
    decreases |text|
  {
    CodePointsInRange(text);
    if text != [] {
      var cp := CodePointAt(text, 0);
      var rest := text[CharCount(cp)..];
      CodePointsRoundTrip(rest);
      assert CodePoints(text)[1..] == CodePoints(rest);
      assert Encode(cp) == text[..CharCount(cp)];
      assert text == text[..CharCount(cp)] + rest;
    }
  }

  /** Text made of scalar values is read back as exactly those values. */
  lemma {:induction false} EncodedScalarsRoundTrip(cps: seq<int>)
    requires AllScalarValues(cps)
    ensures CodePoints(EncodeAll(cps)) == cps
  {
    if cps != [] {
      var text := EncodeAll(cps);
      var units := Encode(cps[0]);
      EncodedScalarsRoundTrip(cps[1..]);
      assert text == units + EncodeAll(cps[1..]);
      assert text[..|units|] == units;
      if cps[0] >= MIN_SUPPLEMENTARY_CODE_POINT {
        assert StartsPair(text, 0);
      } else {
        assert !StartsPair(text, 0);
      }
      assert CodePointAt(text, 0) == cps[0];
      assert text[CharCount(cps[0])..] == EncodeAll(cps[1..]);
    }
  }

  /** A key event from the input method; its contents are not modelled. */
  datatype KeyEvent = KeyEvent(id: nat)

  /** The calls the connection makes on the web view. */
  datatype WebViewCall =
    | SetInputMethodContent(codePoint: int)
    | DeleteInputMethodContent(offset: int, count: int)
    | OnKeyEvent(event: KeyEvent)

  function ContentCalls(cps: seq<int>): (calls: seq<WebViewCall>)
    ensures |calls| == |cps|
    ensures forall i :: 0 <= i < |cps| ==> calls[i] == SetInputMethodContent(cps[i])
  {
    if cps == [] then [] else [SetInputMethodContent(cps[0])] + ContentCalls(cps[1..])
  }

  /** The calls `deleteSurroundingText` makes: one per side that has something to delete. */
  function DeletionCalls(beforeLength: int, afterLength: int): seq<WebViewCall>
  {
    (if beforeLength > 0 then [DeleteInputMethodContent(-beforeLength, beforeLength)] else [])
    + (if afterLength > 0 then [DeleteInputMethodContent(0, afterLength)] else [])
  }

  /** Sending one code point, then the rest, makes the calls of all of them. */
  lemma SendOne(calls: seq<WebViewCall>, cp: int, rest: seq<int>)
    ensures (calls + [SetInputMethodContent(cp)]) + ContentCalls(rest) == calls + ContentCalls([cp] + rest)
  {
    assert ([cp] + rest)[1..] == rest;
  }

  class WPEInputConnection {
    /** The calls made on the web view, in order. */
    var calls: seq<WebViewCall>

    constructor ()
      ensures calls == []
    {
      calls := [];
    }

    /**
     * `commitText`: every code point of the text goes to the web view, in
     * order, the second unit of a surrogate pair being skipped. A null or
     * empty text sends nothing. The text is always accepted.
     */
    method CommitText(text: Option<seq<CodeUnit>>, newCursorPosition: int) returns (accepted: bool)
      modifies this
      ensures accepted
      ensures text.None? ==> calls == old(calls)
      ensures text.Some? ==> calls == old(calls) + ContentCalls(CodePoints(text.value))
    {
      if text.None? || |text.value| == 0 {
        return true;
      }
      var s := text.value;
      var i := 0;
      while i < |s|
        invariant 0 <= i <= |s|
        invariant calls + ContentCalls(CodePoints(s[i..])) == old(calls) + ContentCalls(CodePoints(s))
        decreases |s| - i
      {
        var codePoint := CodePointAt(s, i);
        CodePointsFrom(s, i);
        SendOne(calls, codePoint, CodePoints(s[i + CharCount(codePoint)..]));
        calls := calls + [SetInputMethodContent(codePoint)];
        if codePoint >= MIN_SUPPLEMENTARY_CODE_POINT {
          i := i + 1;
        }
        i := i + 1;
      }
      assert s[i..] == [];
      return true;
    }

    /**
     * `deleteSurroundingText`: the units before the cursor are deleted
     * first, then those after it; a side with nothing to delete makes no
     * call.
     */
    method DeleteSurroundingText(beforeLength: int, afterLength: int) returns (accepted: bool)
      modifies this
      ensures accepted
      ensures calls == old(calls) + DeletionCalls(beforeLength, afterLength)
    {
      if beforeLength > 0 {
        calls := calls + [DeleteInputMethodContent(-beforeLength, beforeLength)];
      }
      if afterLength > 0 {
        calls := calls + [DeleteInputMethodContent(0, afterLength)];
      }
      return true;
    }

    /** `setComposingText`: composing text is committed at once. */
    method SetComposingText(text: Option<seq<CodeUnit>>, newCursorPosition: int) returns (accepted: bool)
      modifies this
      ensures accepted
      ensures text.None? ==> calls == old(calls)
      ensures text.Some? ==> calls == old(calls) + ContentCalls(CodePoints(text.value))
    {
      accepted := CommitText(text, newCursorPosition);
    }

    /** `finishComposingText`: nothing is ever left composing. */
    method FinishComposingText() returns (accepted: bool)
      ensures accepted
    {
      return true;
    }

    /** `deleteSurroundingTextInCodePoints`: the lengths are passed on as code units. */
    method DeleteSurroundingTextInCodePoints(beforeLength: int, afterLength: int) returns (accepted: bool)
      modifies this
      ensures accepted
      ensures calls == old(calls) + DeletionCalls(beforeLength, afterLength)
    {
      accepted := DeleteSurroundingText(beforeLength, afterLength);
    }

    /** `sendKeyEvent`: the event is forwarded. */
    method SendKeyEvent(event: KeyEvent) returns (accepted: bool)
      modifies this
      ensures accepted
      ensures calls == old(calls) + [OnKeyEvent(event)]
    {
      calls := calls + [OnKeyEvent(event)];
      return true;
    }
  }

  /**
   * Committing the UTF-16 text of a sequence of scalar values sends exactly
   * those values, each once and in order.
   */
  lemma CommitSendsEachScalarOnce(cps: seq<int>)
    requires AllScalarValues(cps)
    ensures ContentCalls(CodePoints(EncodeAll(cps))) == ContentCalls(cps)
  {
    EncodedScalarsRoundTrip(cps);
  }
}
