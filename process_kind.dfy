/**
 * How a process of the WPE Android library decides what it is
 * (wpeview/src/main/java/org/wpewebkit/WPEApplication.java).
 *
 * The application class loads the native libraries of the process it runs
 * in. The main process has a plain name; the auxiliary processes run as
 * Android services whose names are the package name, a ':' and the service
 * class name, possibly numbered (`org.example:WPEWebProcess3`). Anything
 * else is refused with an `IllegalStateException`. Loading the libraries and
 * registering the activity observer are not modelled.
 */
module ProcessKind {
  import opened Wrappers

  datatype Kind = MAIN | NETWORK | WEBCONTENT | WEBDRIVER

  /** `IllegalStateException("Cannot derive process kind from ...")`. */
  datatype KindError = CannotDeriveProcessKind(processName: string)

  /** `getLibraryNames`: the libraries each kind of process loads, in order. */
  function LibraryNames(kind: Kind): (names: seq<string>)
    ensures |names| >= 1
    ensures kind == MAIN <==> names == ["WPEAndroidRuntime"]
    ensures kind != MAIN ==> names[|names| - 1] == "WPEAndroidService"
    ensures kind == WEBCONTENT ==> names == ["gstreamer-1.0", "WPEAndroidService"]
    ensures kind == WEBDRIVER ==> names == ["WPEWebDriver", "WPEAndroidService"]
    ensures kind == NETWORK ==> names == ["WPEAndroidService"]
  {
    match kind
    case MAIN => ["WPEAndroidRuntime"]
    case NETWORK => ["WPEAndroidService"]
    case WEBCONTENT => ["gstreamer-1.0", "WPEAndroidService"]
    case WEBDRIVER => ["WPEWebDriver", "WPEAndroidService"]
  }

  /** The service class name an auxiliary process kind runs under. */
  function ServiceName(kind: Kind): string
    requires kind != MAIN
  {
    match kind
    case NETWORK => "WPENetworkProcess"
    case WEBCONTENT => "WPEWebProcess"
    case WEBDRIVER => "WPEWebDriverProcess"
  }

  predicate IsDigit(c: char)
  {
    '0' <= c <= '9'
  }

  /** `String.indexOf(char)`: the first position of `c`, or -1. */
  function IndexOf(s: string, c: char): (k: int)
    ensures -1 <= k < |s|
    ensures k == -1 <==> c !in s
    ensures k >= 0 ==> s[k] == c && c !in s[..k]
  {
    if s == [] then -1
    else if s[0] == c then 0
    else
      var k := IndexOf(s[1..], c);
      assert k >= 0 ==> s[..k + 1] == [s[0]] + s[1..][..k];
      if k == -1 then -1 else k + 1
  }

  /** `replaceAll("[0-9]", "")`: the string with every digit removed. */
  function RemoveDigits(s: string): (r: string)
    ensures |r| <= |s|
    ensures forall i :: 0 <= i < |r| ==> !IsDigit(r[i])
  {
    if s == [] then []
    else if IsDigit(s[0]) then RemoveDigits(s[1..])
    else [s[0]] + RemoveDigits(s[1..])
  }

  /** Removing digits distributes over concatenation. */
  lemma {:induction false} RemoveDigitsConcat(a: string, b: string)
    ensures RemoveDigits(a + b) == RemoveDigits(a) + RemoveDigits(b)
  {
    if a != [] {
      assert (a + b)[0] == a[0];
      assert (a + b)[1..] == a[1..] + b;
      RemoveDigitsConcat(a[1..], b);
    } else {
      assert a + b == b;
    }
  }

  /** A string without digits is left alone, and one made of digits vanishes. */
  lemma {:induction false} RemoveDigitsOf(s: string)
    ensures (forall i :: 0 <= i < |s| ==> !IsDigit(s[i])) ==> RemoveDigits(s) == s
    ensures (forall i :: 0 <= i < |s| ==> IsDigit(s[i])) ==> RemoveDigits(s) == []
  {
    if s != [] {
      RemoveDigitsOf(s[1..]);
      assert forall i :: 1 <= i < |s| ==> s[1..][i - 1] == s[i];
      assert [s[0]] + s[1..] == s;
    }
  }

  /**
   * `getProcessKind`: a name without ':' is the main process; otherwise
   * the part after the first ':', without its digits, names the service.
   */
  function GetProcessKind(name: string): (r: Result<Kind, KindError>)
    ensures r == Ok(MAIN) <==> ':' !in name
    ensures r.Err? ==> r.error == CannotDeriveProcessKind(name)
    ensures r.Ok? && r.value != MAIN ==>
      RemoveDigits(name[IndexOf(name, ':') + 1..]) == ServiceName(r.value)
    ensures ':' in name ==>
      var service := RemoveDigits(name[IndexOf(name, ':') + 1..]);
      (r.Err? <==> service !in {"WPEWebProcess", "WPENetworkProcess", "WPEWebDriverProcess"})
  {
    var colonPosition := IndexOf(name, ':');
    if colonPosition < 0 then Ok(MAIN)
    else
      var service := RemoveDigits(name[colonPosition + 1..]);
      if service == "WPEWebProcess" then Ok(WEBCONTENT)
      else if service == "WPENetworkProcess" then Ok(NETWORK)
      else if service == "WPEWebDriverProcess" then Ok(WEBDRIVER)
      else Err(CannotDeriveProcessKind(name))
  }

  /** The name Android gives a service process: package, ':', service class, number. */
  function ServiceProcessName(package: string, kind: Kind, number: string): string
    requires kind != MAIN
  {
    package + [':'] + ServiceName(kind) + number
  }

  /** The first ':' of a name is the one after a package name without ':'. */
  lemma FirstColonAfterPackage(package: string, rest: string)
    requires ':' !in package
    ensures IndexOf(package + [':'] + rest, ':') == |package|
  {
    var name := package + [':'] + rest;
    assert name[|package|] == ':';
  }

  /** Service class names hold no digits. */
  lemma ServiceNameHasNoDigits(kind: Kind)
    requires kind != MAIN
    ensures RemoveDigits(ServiceName(kind)) == ServiceName(kind)
  {
    var service := ServiceName(kind);
    assert forall i :: 0 <= i < |service| ==> !IsDigit(service[i]);
    RemoveDigitsOf(service);
  }

  /**
   * Every auxiliary kind is recovered from the name of the process it runs
   * in, whatever the process is numbered.
   */
  lemma {:induction false} ServiceProcessNameRoundTrip(package: string, kind: Kind, number: string)
    requires kind != MAIN && ':' !in package
    requires forall i :: 0 <= i < |number| ==> IsDigit(number[i])
    ensures GetProcessKind(ServiceProcessName(package, kind, number)) == Ok(kind)
  {
    var service := ServiceName(kind);
    var name := package + [':'] + (service + number);
    assert name == ServiceProcessName(package, kind, number);
    FirstColonAfterPackage(package, service + number);
    assert name[|package| + 1..] == service + number;
    NumberedServiceName(kind, number);
  }

  /** Stripping the digits of a numbered service name leaves the service name. */
  lemma NumberedServiceName(kind: Kind, number: string)
    requires kind != MAIN
    requires forall i :: 0 <= i < |number| ==> IsDigit(number[i])
    ensures RemoveDigits(ServiceName(kind) + number) == ServiceName(kind)
  {
    RemoveDigitsConcat(ServiceName(kind), number);
    RemoveDigitsOf(number);
    ServiceNameHasNoDigits(kind);
  }
}
