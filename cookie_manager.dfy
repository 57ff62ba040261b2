/**
 * The cookie manager (com/wpe/wpeview/WPECookieManager.java).
 *
 * Two switches, whether cookies are accepted at all and whether third-party
 * cookies are, are kept on the Java side and folded into one of WebKit's
 * three cookie accept policies, which is pushed to native code whenever it
 * may have changed. Native code is modelled by the log of calls made on it.
 */
module CookieManager {
  import opened Wrappers

  /** `NativeCookieAcceptPolicy`. */
  datatype CookieAcceptPolicy = AcceptAlways | AcceptNever | AcceptNoThirdParty

  /** The integer each policy is passed to native code as. */
  function PolicyValue(p: CookieAcceptPolicy): (v: int)
    ensures 0 <= v <= 2
  {
    match p
    case AcceptAlways => 0
    case AcceptNever => 1
    case AcceptNoThirdParty => 2
  }

  function PolicyOfValue(v: int): Option<CookieAcceptPolicy>
  {
    if v == 0 then Some(AcceptAlways)
    else if v == 1 then Some(AcceptNever)
    else if v == 2 then Some(AcceptNoThirdParty)
    else None
  }

  /** Each policy has its own value, and the values are exactly 0, 1 and 2. */
  lemma PolicyValueRoundTrip(p: CookieAcceptPolicy, v: int)
    ensures PolicyOfValue(PolicyValue(p)) == Some(p)
    ensures PolicyOfValue(v).Some? <==> 0 <= v <= 2
    ensures PolicyOfValue(v).Some? ==> PolicyValue(PolicyOfValue(v).value) == v
  {
  }

  /**
   * The policy for the two switches: nothing is accepted when cookies are
   * off, and third-party cookies only when both switches are on.
   */
  function PolicyFor(acceptCookie: bool, acceptThirdPartyCookie: bool): (p: CookieAcceptPolicy)
    ensures p == AcceptNever <==> !acceptCookie
    ensures p == AcceptAlways <==> acceptCookie && acceptThirdPartyCookie
    ensures p == AcceptNoThirdParty <==> acceptCookie && !acceptThirdPartyCookie
  {
    if !acceptCookie then AcceptNever
    else if acceptThirdPartyCookie then AcceptAlways
    else AcceptNoThirdParty
  }

  /** The calls the cookie manager makes on native code. */
  datatype NativeCall =
    | SetCookieAcceptPolicy(policy: int)
    | NativeRemoveAllCookies(callback: Option<nat>)

  /** The policy the last policy call set, if any. */
  function LastPolicy(calls: seq<NativeCall>): Option<int>
  {
    if calls == [] then None
    else if calls[|calls| - 1].SetCookieAcceptPolicy? then Some(calls[|calls| - 1].policy)
    else LastPolicy(calls[..|calls| - 1])
  }

  lemma LastPolicyAppend(calls: seq<NativeCall>, c: NativeCall)
    ensures LastPolicy(calls + [c]) == if c.SetCookieAcceptPolicy? then Some(c.policy) else LastPolicy(calls)
  {
    assert (calls + [c])[..|calls|] == calls;
  }

  class WPECookieManager {
    var acceptCookie: bool
    var acceptThirdPartyCookie: bool
    var nativeCalls: seq<NativeCall>

    /** Once a policy has been pushed, native code holds the policy of the current switches. */
    predicate Valid()
      reads this
    {
      LastPolicy(nativeCalls).Some? ==> LastPolicy(nativeCalls) == Some(PolicyValue(PolicyFor(acceptCookie, acceptThirdPartyCookie)))
    }

    /** The single instance: cookies accepted, third-party cookies not, nothing pushed yet. */
    constructor ()
      ensures Valid()
      ensures acceptCookie && !acceptThirdPartyCookie && nativeCalls == []
    {
      acceptCookie := true;
      acceptThirdPartyCookie := false;
      nativeCalls := [];
    }

    /** `setAcceptCookie`: a change is stored and the resulting policy pushed; setting the same value does nothing. */
    method SetAcceptCookie(accept: bool)
      requires Valid()
      modifies this`acceptCookie, this`nativeCalls
      ensures Valid()
      ensures acceptCookie == accept
      ensures accept == old(acceptCookie) ==> nativeCalls == old(nativeCalls)
      ensures accept != old(acceptCookie) ==>
        nativeCalls == old(nativeCalls) + [SetCookieAcceptPolicy(PolicyValue(PolicyFor(accept, acceptThirdPartyCookie)))]
    {
      if acceptCookie == accept {
        return;
      }
      acceptCookie := accept;
      var policy := AcceptNever;
      if accept {
        if !acceptThirdPartyCookie {
          policy := AcceptNoThirdParty;
        } else {
          policy := AcceptAlways;
        }
      }
      LastPolicyAppend(nativeCalls, SetCookieAcceptPolicy(PolicyValue(policy)));
      nativeCalls := nativeCalls + [SetCookieAcceptPolicy(PolicyValue(policy))];
    }

    /**
     * `setAcceptThirdPartyCookies`: a change is stored, and pushed only
     * while cookies are accepted at all (otherwise the policy stays "never").
     */
    method SetAcceptThirdPartyCookies(accept: bool)
      requires Valid()
      modifies this`acceptThirdPartyCookie, this`nativeCalls
      ensures Valid()
      ensures acceptThirdPartyCookie == accept
      ensures accept == old(acceptThirdPartyCookie) || !acceptCookie ==> nativeCalls == old(nativeCalls)
      ensures accept != old(acceptThirdPartyCookie) && acceptCookie ==>
        nativeCalls == old(nativeCalls) + [SetCookieAcceptPolicy(PolicyValue(PolicyFor(acceptCookie, accept)))]
    {
      if acceptThirdPartyCookie == accept {
        return;
      }
      acceptThirdPartyCookie := accept;
      if acceptCookie {
        var policy := if acceptThirdPartyCookie then AcceptAlways else AcceptNoThirdParty;
        LastPolicyAppend(nativeCalls, SetCookieAcceptPolicy(PolicyValue(policy)));
        nativeCalls := nativeCalls + [SetCookieAcceptPolicy(PolicyValue(policy))];
      }
    }

    /** `removeAllCookies`: native code gets a holder for the optional callback. */
    method RemoveAllCookies(callback: Option<nat>)
      requires Valid()
      modifies this`nativeCalls
      ensures Valid()
      ensures nativeCalls == old(nativeCalls) + [NativeRemoveAllCookies(callback)]
    {
      LastPolicyAppend(nativeCalls, NativeRemoveAllCookies(callback));
      nativeCalls := nativeCalls + [NativeRemoveAllCookies(callback)];
    }
  }
}
