/**
 * The per-view settings object of the WPE Android library
 * (wpe/src/main/java/org/wpewebkit/wpe/WKSettings.java).
 *
 * Every setting is a field; a setter stores a new value and passes it to
 * the native web view only when it differs from the stored one. The user
 * agent falls back to a default built from the Android release version,
 * which is read once with a regular expression. The native calls are
 * recorded in a log instead of being made; the release version is a
 * parameter.
 */
module Settings {
  import opened Wrappers

  predicate IsDigit(c: char)
  {
    '0' <= c <= '9'
  }

  /** The end of the run of digits starting at `i`. */
  function DigitsEnd(s: string, i: nat): (j: nat)
    requires i <= |s|
    ensures i <= j <= |s|
    ensures forall k :: i <= k < j ==> IsDigit(s[k])
    ensures j == |s| || !IsDigit(s[j])
    decreases |s| - i
  {
    if i < |s| && IsDigit(s[i]) then DigitsEnd(s, i + 1) else i
  }

  /** Where `(0|[1-9]\d*)` matching at `i` ends, if it matches. */
  function NumberEnd(s: string, i: nat): (end: Option<nat>)
    requires i <= |s|
    ensures end.Some? <==> i < |s| && IsDigit(s[i])
    ensures end.Some? ==> i < end.value <= |s|
    ensures end.Some? && s[i] == '0' ==> end.value == i + 1
  {
    if i < |s| && s[i] == '0' then Some(i + 1)
    else if i < |s| && '1' <= s[i] <= '9' then Some(DigitsEnd(s, i + 1))
    else None
  }

  /** `^(0|[1-9]\d*)\.(0|[1-9]\d*)\.(0|[1-9]\d*)` matches at the start of `s`. */
  predicate VersionPrefix(s: string)
  {
    && NumberEnd(s, 0).Some?
    && var a := NumberEnd(s, 0).value;
    && a < |s| && s[a] == '.'
    && NumberEnd(s, a + 1).Some?
    && var b := NumberEnd(s, a + 1).value;
    && b < |s| && s[b] == '.'
    && NumberEnd(s, b + 1).Some?
  }

  /** `DEFAULT_MAJOR_VERSION.DEFAULT_MINOR_VERSION.DEFAULT_BUGFIX_VERSION`. */
  const DefaultOsVersion: string := "12.0.0"

  lemma DefaultOsVersionIsAVersion()
    ensures VersionPrefix(DefaultOsVersion)
  {
    assert NumberEnd(DefaultOsVersion, 0) == Some(2);
    assert NumberEnd(DefaultOsVersion, 3) == Some(4);
    assert NumberEnd(DefaultOsVersion, 5) == Some(6);
  }

  /** Java exceptions that `getOsVersion` swallows. */
  datatype JavaException = IllegalStateException | IndexOutOfBoundsException

  /** A `java.util.regex.Matcher`: its input and the groups of its last match, if any. */
  datatype Matcher = Matcher(input: string, lastMatch: Option<seq<string>>)

  /** `Pattern.matcher`: a matcher that has not tried to match yet. */
  function NewMatcher(input: string): (m: Matcher)
    ensures m.input == input && m.lastMatch.None?
  {
    Matcher(input, None)
  }

  /** `Matcher.group`: an `IllegalStateException` unless a match was made. */
  function Group(m: Matcher, group: nat): (r: Result<string, JavaException>)
    ensures m.lastMatch.None? ==> r == Err(IllegalStateException)
    ensures r.Ok? <==> m.lastMatch.Some? && group < |m.lastMatch.value|
  {
    match m.lastMatch
    case None => Err(IllegalStateException)
    case Some(groups) =>
      if group < |groups| then Ok(groups[group]) else Err(IndexOutOfBoundsException)
  }

  /**
   * `getOsVersion` as written: the matcher is asked for a group without
   * being asked to match, so the exception handler always runs.
   */
  function OsVersionAsWritten(releaseVersion: string): (v: string)
    ensures v == DefaultOsVersion
    ensures VersionPrefix(v)
  {
    DefaultOsVersionIsAVersion();
    var matcher := NewMatcher(releaseVersion);
    match Group(matcher, 1)
    case Err(_) => DefaultOsVersion
    case Ok(majorVersionString) =>
      if majorVersionString != "" then releaseVersion else DefaultOsVersion
  }

  /** A release version with a version number is replaced all the same. */
  lemma OsVersionAsWrittenDropsAValidRelease()
    ensures VersionPrefix("14.1.0") && OsVersionAsWritten("14.1.0") != "14.1.0"
  {
    var r := "14.1.0";
    assert NumberEnd(r, 0) == Some(2) by {
      assert DigitsEnd(r, 2) == 2;
      assert DigitsEnd(r, 1) == 2;
    }
    assert NumberEnd(r, 3) == Some(4);
    assert NumberEnd(r, 5) == Some(6);
  }

  /**
   * `getOsVersion` as intended: the release version when it starts with
   * a version number, the default version otherwise.
   */
  function OsVersion(releaseVersion: string): (v: string)
    ensures VersionPrefix(v)
    ensures v == releaseVersion <==> VersionPrefix(releaseVersion)
    ensures v != releaseVersion ==> v == DefaultOsVersion
  {
    DefaultOsVersionIsAVersion();
    if VersionPrefix(releaseVersion) then releaseVersion else DefaultOsVersion
  }

  const UserAgentHead: string := "Mozilla/5.0 (Linux; Android "
  const UserAgentTail: string := ") AppleWebKit/605.1.15 (KHTML, like Gecko) Version/15.0 Mobile Safari/605.1.15"

  /** `DEFAUlT_USER_AGENT`: the OS version inside a fixed Safari-like user agent. */
  function DefaultUserAgent(osVersion: string): (ua: string)
    ensures |ua| == |UserAgentHead| + |osVersion| + |UserAgentTail|
    ensures ua[..|UserAgentHead|] == UserAgentHead
    ensures ua[|UserAgentHead|..|UserAgentHead| + |osVersion|] == osVersion
    ensures ua[|UserAgentHead| + |osVersion|..] == UserAgentTail
  {
    var ua := UserAgentHead + osVersion + UserAgentTail;
    assert ua[|UserAgentHead|..|UserAgentHead| + |osVersion|] == osVersion;
    ua
  }

  /** The native setter calls made, in order. */
  datatype NativeCall =
    | NativeSetUserAgentString(userAgent: string)
    | NativeSetMediaPlaybackRequiresUserGesture(required: bool)
    | NativeSetAllowUniversalAccessFromFileURLs(flag: bool)
    | NativeSetAllowFileAccessFromFileURLs(flag: bool)
    | NativeSetDeveloperExtrasEnabled(flag: bool)

  class WKSettings {
    const defaultUserAgent: string
    var userAgent: string
    var mediaPlaybackRequiresUserGesture: bool
    var allowUniversalAccessFromFileUrls: bool
    var allowFileAccessFromFileUrls: bool
    var developerExtrasEnabled: bool
    var nativeCalls: seq<NativeCall>

    /** Once constructed, the user agent is never empty. */
    predicate Valid()
      reads this
    {
      defaultUserAgent != "" && userAgent != ""
    }

    /**
     * The constructor: the user agent is reset to the default and media
     * playback made to require a gesture, both of which reach native code.
     * The default user agent is built from `getOsVersion` as written, so it
     * always names Android 12.0.0.
     */
    constructor (releaseVersion: string)
      ensures Valid()
      ensures defaultUserAgent == DefaultUserAgent(OsVersionAsWritten(releaseVersion))
      ensures defaultUserAgent == DefaultUserAgent("12.0.0")
      ensures userAgent == defaultUserAgent && mediaPlaybackRequiresUserGesture
      ensures !allowUniversalAccessFromFileUrls && !allowFileAccessFromFileUrls && !developerExtrasEnabled
      ensures nativeCalls == [NativeSetUserAgentString(defaultUserAgent), NativeSetMediaPlaybackRequiresUserGesture(true)]
    {
      defaultUserAgent := DefaultUserAgent(OsVersionAsWritten(releaseVersion));
      userAgent := "";
      mediaPlaybackRequiresUserGesture := false;
      allowUniversalAccessFromFileUrls := false;
      allowFileAccessFromFileUrls := false;
      developerExtrasEnabled := false;
      nativeCalls := [];
      new;
      SetUserAgentString(None);
      SetMediaPlaybackRequiresUserGesture(true);
    }

    function GetUserAgentString(): string
      reads this
    {
      userAgent
    }

    /**
     * `setUserAgentString`: a null or empty string stands for the default;
     * the native side hears of the value only when it changes.
     */
    method SetUserAgentString(str: Option<string>)
      requires defaultUserAgent != ""
      modifies this`userAgent, this`nativeCalls
      ensures Valid()
      ensures str.None? || str == Some("") ==> userAgent == defaultUserAgent
      ensures str.Some? && str != Some("") ==> userAgent == str.value
      ensures userAgent == old(userAgent) ==> nativeCalls == old(nativeCalls)
      ensures userAgent != old(userAgent) ==> nativeCalls == old(nativeCalls) + [NativeSetUserAgentString(userAgent)]
    {
      var s := if str.None? || str.value == "" then defaultUserAgent else str.value;
      if s != userAgent {
        userAgent := s;
        nativeCalls := nativeCalls + [NativeSetUserAgentString(userAgent)];
      }
    }

    function GetMediaPlaybackRequiresUserGesture(): bool
      reads this
    {
      mediaPlaybackRequiresUserGesture
    }

    /** `setMediaPlaybackRequiresUserGesture`: stored, and passed on only when it changes. */
    method SetMediaPlaybackRequiresUserGesture(required: bool)
      modifies this`mediaPlaybackRequiresUserGesture, this`nativeCalls
      ensures mediaPlaybackRequiresUserGesture == required
      ensures required == old(mediaPlaybackRequiresUserGesture) ==> nativeCalls == old(nativeCalls)
      ensures required != old(mediaPlaybackRequiresUserGesture) ==>
        nativeCalls == old(nativeCalls) + [NativeSetMediaPlaybackRequiresUserGesture(required)]
    {
      if required != mediaPlaybackRequiresUserGesture {
        mediaPlaybackRequiresUserGesture := required;
        nativeCalls := nativeCalls + [NativeSetMediaPlaybackRequiresUserGesture(required)];
      }
    }

    function GetAllowUniversalAccessFromFileURLs(): bool
      reads this
    {
      allowUniversalAccessFromFileUrls
    }

    /** `setAllowUniversalAccessFromFileURLs`: stored, and passed on only when it changes. */
    method SetAllowUniversalAccessFromFileURLs(flag: bool)
      modifies this`allowUniversalAccessFromFileUrls, this`nativeCalls
      ensures allowUniversalAccessFromFileUrls == flag
      ensures flag == old(allowUniversalAccessFromFileUrls) ==> nativeCalls == old(nativeCalls)
      ensures flag != old(allowUniversalAccessFromFileUrls) ==>
        nativeCalls == old(nativeCalls) + [NativeSetAllowUniversalAccessFromFileURLs(flag)]
    {
      if flag != allowUniversalAccessFromFileUrls {
        allowUniversalAccessFromFileUrls := flag;
        nativeCalls := nativeCalls + [NativeSetAllowUniversalAccessFromFileURLs(flag)];
      }
    }

    function GetAllowFileAccessFromFileURLs(): bool
      reads this
    {
      allowFileAccessFromFileUrls
    }

    /** `setAllowFileAccessFromFileURLs`: stored, and passed on only when it changes. */
    method SetAllowFileAccessFromFileURLs(flag: bool)
      modifies this`allowFileAccessFromFileUrls, this`nativeCalls
      ensures allowFileAccessFromFileUrls == flag
      ensures flag == old(allowFileAccessFromFileUrls) ==> nativeCalls == old(nativeCalls)
      ensures flag != old(allowFileAccessFromFileUrls) ==>
        nativeCalls == old(nativeCalls) + [NativeSetAllowFileAccessFromFileURLs(flag)]
    {
      if flag != allowFileAccessFromFileUrls {
        allowFileAccessFromFileUrls := flag;
        nativeCalls := nativeCalls + [NativeSetAllowFileAccessFromFileURLs(flag)];
      }
    }

    function GetDeveloperExtrasEnabled(): bool
      reads this
    {
      developerExtrasEnabled
    }

    /** `setDeveloperExtrasEnabled`: stored, and passed on only when it changes. */
    method SetDeveloperExtrasEnabled(flag: bool)
      modifies this`developerExtrasEnabled, this`nativeCalls
      ensures developerExtrasEnabled == flag
      ensures flag == old(developerExtrasEnabled) ==> nativeCalls == old(nativeCalls)
      ensures flag != old(developerExtrasEnabled) ==>
        nativeCalls == old(nativeCalls) + [NativeSetDeveloperExtrasEnabled(flag)]
    {
      if flag != developerExtrasEnabled {
        developerExtrasEnabled := flag;
        nativeCalls := nativeCalls + [NativeSetDeveloperExtrasEnabled(flag)];
      }
    }
  }

  /** Setting the same user agent twice reaches native code at most once. */
  method SetUserAgentTwice(settings: WKSettings, str: Option<string>)
    requires settings.Valid()
    modifies settings
    ensures settings.Valid()
    ensures |settings.nativeCalls| <= |old(settings.nativeCalls)| + 1
  {
    settings.SetUserAgentString(str);
    ghost var afterFirst := settings.nativeCalls;
    settings.SetUserAgentString(str);
    assert settings.nativeCalls == afterFirst;
  }
}
