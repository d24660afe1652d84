/** The four authentication calls. Each is one signed call through the
    default caller, made without a session (there is none yet) and with the
    GET method; getMobileSession passes the user name and the authentication
    token, getSession the request token, getToken and getWebSession nothing.
    The caller is the one the factory's getDefaultCaller hands out; it is
    passed in here. */
module AuthSessions {
  import opened Wrappers
  import opened Params
  import Util
  import Auth
  import Callers

  /** getMobileSession's parameters. */
  function MobileSessionParams(username: string, password: string, applyMd5: bool, md5: string -> string): Params {
    [("username", username), ("authToken", Auth.AuthToken(username, password, applyMd5, md5))]
  }

  /** getSession's parameters. */
  function SessionParams(token: string): Params {
    [("token", token)]
  }

  /** getToken: the returned node as a string (empty when the response has
      no child, or when toString finds the text empty, "0" or blank); an
      error of the call is passed on. */
  function TokenOf(result: Callers.CallResult): (r: Result<string, Callers.CallResult>)
    ensures r.Success? <==> result.Returned?
    ensures result.Returned? && result.node.Some? && Util.Filled(result.node.value) ==>
      r == Success(result.node.value)
    ensures result.Returned? && !(result.node.Some? && Util.Filled(result.node.value)) ==>
      r == Success("")
    ensures r.Failure? ==> r.error == result
  {
    match result
    case Returned(node) => Success(Util.ToString(node.GetOr("")))
    case _ => Failure(result)
  }

  /** No authentication request carries a session key: with no session and
      no `sk` among the parameters, the signed request has no `sk`. */
  lemma NoSessionKeySent(apiMethod: string, apiKey: string, params: Params, apiSecret: string,
                         rt: Callers.Runtime)
    requires UniqueKeys(params) && "sk" !in Keys(params)
    ensures "sk" !in Keys(Callers.SignedCallParams(apiMethod, apiKey, None, params, apiSecret, rt))
  {
    var p := Callers.UnsignedParams(apiMethod, apiKey, None, params, rt.convert);
    Callers.SignedCallSessionKey(apiMethod, apiKey, None, params, rt.convert);
    SetKeys(p, "api_sig", rt.md5(Auth.SignaturePreImage(p, apiSecret)));
  }

  /** A name the library itself sets in a signed request. */
  predicate Reserved(name: string) {
    name == "method" || name == "api_key" || name == "sk" || name == "api_sig"
  }

  /** A signed request without a session, made with parameters under names
      of the caller's own, sends its method and each of those parameters
      (converted), and no session key. */
  lemma SignedRequestSends(apiMethod: string, apiKey: string, params: Params, apiSecret: string,
                           rt: Callers.Runtime, name: string)
    requires UniqueKeys(params) && forall k :: k in Keys(params) ==> !Reserved(k)
    requires name in Keys(params)
    ensures var signed := Callers.SignedCallParams(apiMethod, apiKey, None, params, apiSecret, rt);
      Lookup(signed, "method") == Some(rt.convert(apiMethod)) &&
      Lookup(signed, name) == Some(rt.convert(Lookup(params, name).value)) &&
      "sk" !in Keys(signed)
  {
    assert Lookup(Callers.SignedCallParams(apiMethod, apiKey, None, params, apiSecret, rt), "method")
        == Some(rt.convert(apiMethod)) by {
      Callers.SignedCallLookup(apiMethod, apiKey, params, apiSecret, rt, "method");
      Callers.CallParamsLookup(apiMethod, apiKey, params, rt.convert, "method");
    }
    assert Lookup(Callers.SignedCallParams(apiMethod, apiKey, None, params, apiSecret, rt), name)
        == Some(rt.convert(Lookup(params, name).value)) by {
      Callers.SignedCallLookup(apiMethod, apiKey, params, apiSecret, rt, name);
      Callers.CallParamsLookup(apiMethod, apiKey, params, rt.convert, name);
    }
    NoSessionKeySent(apiMethod, apiKey, params, apiSecret, rt);
  }

  /** The mobile-session request names its method, and sends the user name
      and the token built from the user name and the password (both
      converted like every value), and no session key. */
  lemma MobileSessionRequest(username: string, password: string, applyMd5: bool, apiKey: string,
                             apiSecret: string, rt: Callers.Runtime)
    ensures var signed := Callers.SignedCallParams("auth.getMobileSession", apiKey, None,
                                                  MobileSessionParams(username, password, applyMd5, rt.md5),
                                                  apiSecret, rt);
      Lookup(signed, "method") == Some(rt.convert("auth.getMobileSession")) &&
      Lookup(signed, "username") == Some(rt.convert(username)) &&
      Lookup(signed, "authToken") == Some(rt.convert(Auth.AuthToken(username, password, applyMd5, rt.md5))) &&
      "sk" !in Keys(signed)
  {
    var params := MobileSessionParams(username, password, applyMd5, rt.md5);
    assert Keys(params) == ["username", "authToken"];
    SignedRequestSends("auth.getMobileSession", apiKey, params, apiSecret, rt, "username");
    SignedRequestSends("auth.getMobileSession", apiKey, params, apiSecret, rt, "authToken");
  }

  /** The session request names its method, sends the token, and no
      session key. */
  lemma SessionRequest(token: string, apiKey: string, apiSecret: string, rt: Callers.Runtime)
    ensures var signed := Callers.SignedCallParams("auth.getSession", apiKey, None, SessionParams(token),
                                                  apiSecret, rt);
      Lookup(signed, "method") == Some(rt.convert("auth.getSession")) &&
      Lookup(signed, "token") == Some(rt.convert(token)) &&
      "sk" !in Keys(signed)
  {
    var params := SessionParams(token);
    assert Keys(params) == ["token"];
    SignedRequestSends("auth.getSession", apiKey, params, apiSecret, rt, "token");
  }

  /** getMobileSession: the signed call with the user name and the token.
      Building the Session object from the returned node is not modelled. */
  method GetMobileSession(caller: Callers.Caller, rt: Callers.Runtime, username: string, password: string,
                          applyMd5: bool := true)
    returns (result: Callers.CallResult)
    modifies caller`headers, caller.cache
    ensures caller.cache == old(caller.cache) &&
      (caller.cache != null ==> caller.cache.policy == old(caller.cache.policy))
    ensures var p := Callers.SignedCallParams("auth.getMobileSession", caller.apiKey, None,
                                             MobileSessionParams(username, password, applyMd5, rt.md5),
                                             caller.apiSecret, rt);
      var o := Callers.ServeWithPolicy(caller.kind, caller.cache != null,
                                       if caller.cache != null then old(caller.cache.entries) else map[],
                                       if caller.cache != null then old(caller.cache.policy.weeklyChartsExpiration) else 0,
                                       old(caller.headers), p, "GET", rt);
      result == o.result && caller.headers == o.headers && (caller.cache != null ==> caller.cache.entries == o.entries)
  {
    var token := Auth.AuthToken(username, password, applyMd5, rt.md5);
    result := caller.SignedCall(rt, "auth.getMobileSession", [("username", username), ("authToken", token)]);
  }

  /** getSession: the signed call with the authorised request token. */
  method GetSession(caller: Callers.Caller, rt: Callers.Runtime, token: string)
    returns (result: Callers.CallResult)
    modifies caller`headers, caller.cache
    ensures caller.cache == old(caller.cache) &&
      (caller.cache != null ==> caller.cache.policy == old(caller.cache.policy))
    ensures var p := Callers.SignedCallParams("auth.getSession", caller.apiKey, None, SessionParams(token),
                                             caller.apiSecret, rt);
      var o := Callers.ServeWithPolicy(caller.kind, caller.cache != null,
                                       if caller.cache != null then old(caller.cache.entries) else map[],
                                       if caller.cache != null then old(caller.cache.policy.weeklyChartsExpiration) else 0,
                                       old(caller.headers), p, "GET", rt);
      result == o.result && caller.headers == o.headers && (caller.cache != null ==> caller.cache.entries == o.entries)
  {
    result := caller.SignedCall(rt, "auth.getSession", [("token", token)]);
  }

  /** getToken: the signed call without parameters; the token is the
      returned node as a string. */
  method GetToken(caller: Callers.Caller, rt: Callers.Runtime)
    returns (token: Result<string, Callers.CallResult>)
    modifies caller`headers, caller.cache
    ensures caller.cache == old(caller.cache) &&
      (caller.cache != null ==> caller.cache.policy == old(caller.cache.policy))
    ensures var p := Callers.SignedCallParams("auth.getToken", caller.apiKey, None, [], caller.apiSecret, rt);
      var o := Callers.ServeWithPolicy(caller.kind, caller.cache != null,
                                       if caller.cache != null then old(caller.cache.entries) else map[],
                                       if caller.cache != null then old(caller.cache.policy.weeklyChartsExpiration) else 0,
                                       old(caller.headers), p, "GET", rt);
      token == TokenOf(o.result) && caller.headers == o.headers &&
      (caller.cache != null ==> caller.cache.entries == o.entries)
  {
    var result := caller.SignedCall(rt, "auth.getToken");
    token := TokenOf(result);
  }

  /** getWebSession: the signed call without parameters. */
  method GetWebSession(caller: Callers.Caller, rt: Callers.Runtime)
    returns (result: Callers.CallResult)
    modifies caller`headers, caller.cache
    ensures caller.cache == old(caller.cache) &&
      (caller.cache != null ==> caller.cache.policy == old(caller.cache.policy))
    ensures var p := Callers.SignedCallParams("auth.getWebSession", caller.apiKey, None, [], caller.apiSecret, rt);
      var o := Callers.ServeWithPolicy(caller.kind, caller.cache != null,
                                       if caller.cache != null then old(caller.cache.entries) else map[],
                                       if caller.cache != null then old(caller.cache.policy.weeklyChartsExpiration) else 0,
                                       old(caller.headers), p, "GET", rt);
      result == o.result && caller.headers == o.headers && (caller.cache != null ==> caller.cache.entries == o.entries)
  {
    result := caller.SignedCall(rt, "auth.getWebSession");
  }
}
