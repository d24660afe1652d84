/** The request callers. A call assembles the request parameters (method,
    API key, optionally the session key and the signature), derives the cache
    key, serves a fresh cached response if there is one, and otherwise fetches
    the response, caches it (for the time the Expires header names, else for
    the policy's time to live), and finally reads the response envelope.

    The cURL caller and the socket caller differ only in how they fetch: one
    `Caller` class carries a `Kind` tag instead of two subclasses. What the
    model cannot see (hashes, the clock, strtotime, the UTF-8 converter, query
    building, XML parsing and the transports) comes in a `Runtime` value. */
module Callers {
  import opened Wrappers
  import opened Params
  import Php
  import Util
  import Auth
  import Cache
  import CachePolicy
  import Http

  /** What the XML parser reports of a response: the status attribute, the
      first child element when it is present and truthy, and the error
      element's text and code attribute. */
  datatype Envelope = Envelope(status: string, firstChild: Option<string>, error: string, errorCode: string)

  /** What a call ends in: the first child (or nothing) returned, the API's
      error thrown with its message and code, or the parser's exception on a
      malformed response. */
  datatype CallResult =
    | Returned(node: Option<string>)
    | ApiError(message: string, code: int)
    | Malformed

  datatype CurlRequest = CurlRequest(url: string, post: bool, postFields: string)

  /** The header lines cURL hands to the header callback, in order, and the
      response body. */
  datatype CurlResponse = CurlResponse(headerLines: seq<string>, body: string)

  datatype Runtime = Runtime(
    md5: string -> string,
    sha1: string -> string,
    strtotime: string -> Option<int>,
    convert: string -> string,
    buildQuery: Params -> string,
    parseXml: string -> Option<Envelope>,
    phpVersion: string,
    now: int,
    curlExec: CurlRequest -> CurlResponse,
    socketExchange: string -> seq<string>)

  datatype Kind = Curl | Socket

  // ---------------------------------------------------------------------------
  // Parameter assembly

  /** call(): method and API key first, the caller's parameters merged over
      them, every value converted to UTF-8. */
  function CallParams(apiMethod: string, apiKey: string, params: Params, convert: string -> string): Params {
    ConvertValues(Merge([("method", apiMethod), ("api_key", apiKey)], params), convert)
  }

  /** The built-in parameters of signedCall(): method, API key, and the
      session key when there is a session. */
  function SignedBase(apiMethod: string, apiKey: string, sessionKey: Option<string>): Params {
    var base := [("method", apiMethod), ("api_key", apiKey)];
    if sessionKey.Some? then Set(base, "sk", sessionKey.value) else base
  }

  /** The session key, when there is one, follows method and API key. */
  lemma SignedBaseIs(apiMethod: string, apiKey: string, sessionKey: Option<string>)
    ensures SignedBase(apiMethod, apiKey, sessionKey) ==
      [("method", apiMethod), ("api_key", apiKey)] + if sessionKey.Some? then [("sk", sessionKey.value)] else []
  {
    var base: Params := [("method", apiMethod), ("api_key", apiKey)];
    if sessionKey.Some? {
      assert Keys(base) == ["method", "api_key"];
      SetAppends(base, "sk", sessionKey.value);
    }
  }

  /** signedCall()'s parameters before the signature is added. */
  function UnsignedParams(apiMethod: string, apiKey: string, sessionKey: Option<string>, params: Params,
                          convert: string -> string): Params {
    ConvertValues(Merge(SignedBase(apiMethod, apiKey, sessionKey), params), convert)
  }

  /** signedCall(): the unsigned parameters, with `api_sig` set to their
      signature. */
  function SignedCallParams(apiMethod: string, apiKey: string, sessionKey: Option<string>, params: Params,
                            apiSecret: string, rt: Runtime): Params {
    var p := UnsignedParams(apiMethod, apiKey, sessionKey, params, rt.convert);
    Set(p, "api_sig", rt.md5(Auth.SignaturePreImage(p, apiSecret)))
  }

  /** The request always starts with `method` and `api_key`, in that order,
      whatever the caller passes. */
  lemma CallParamsLeadingKeys(apiMethod: string, apiKey: string, params: Params, convert: string -> string)
    ensures |CallParams(apiMethod, apiKey, params, convert)| >= 2
    ensures Keys(CallParams(apiMethod, apiKey, params, convert))[..2] == ["method", "api_key"]
  {
    var base: Params := [("method", apiMethod), ("api_key", apiKey)];
    MergeKeepsLeadingKeys(base, params);
    assert Keys(base) == ["method", "api_key"];
  }

  /** A parameter the caller passes overrides the built-in one of the same
      name; the others are the built-in values; every value is converted. */
  lemma CallParamsLookup(apiMethod: string, apiKey: string, params: Params, convert: string -> string, name: string)
    requires UniqueKeys(params)
    ensures Lookup(CallParams(apiMethod, apiKey, params, convert), name) ==
      if name in Keys(params) then Some(convert(Lookup(params, name).value))
      else if name == "method" then Some(convert(apiMethod))
      else if name == "api_key" then Some(convert(apiKey))
      else None
  {
    var base: Params := [("method", apiMethod), ("api_key", apiKey)];
    MergeLookup(base, params, name);
    MergeKeys(base, params, name);
    assert Keys(base) == ["method", "api_key"];
  }

  /** The session key is sent exactly when there is a session or the caller
      passes one; with a session and no `sk` of the caller's, it is the
      session's key. */
  lemma SignedCallSessionKey(apiMethod: string, apiKey: string, sessionKey: Option<string>, params: Params,
                             convert: string -> string)
    requires UniqueKeys(params)
    ensures var p := UnsignedParams(apiMethod, apiKey, sessionKey, params, convert);
      ("sk" in Keys(p) <==> sessionKey.Some? || "sk" in Keys(params)) &&
      (sessionKey.Some? && "sk" !in Keys(params) ==> Lookup(p, "sk") == Some(convert(sessionKey.value)))
  {
    var base := SignedBase(apiMethod, apiKey, sessionKey);
    SignedBaseIs(apiMethod, apiKey, sessionKey);
    assert Keys(base) == ["method", "api_key"] + if sessionKey.Some? then ["sk"] else [];
    MergeKeys(base, params, "sk");
    MergeLookup(base, params, "sk");
  }

  /** The signature covers every parameter sent except itself: when the
      caller passes no `api_sig`, the signed request is the unsigned one with
      `api_sig` appended last, holding md5 of the unsigned request's
      pre-image. */
  lemma SignedCallSignature(apiMethod: string, apiKey: string, sessionKey: Option<string>, params: Params,
                            apiSecret: string, rt: Runtime)
    requires "api_sig" !in Keys(params)
    ensures var p := UnsignedParams(apiMethod, apiKey, sessionKey, params, rt.convert);
      SignedCallParams(apiMethod, apiKey, sessionKey, params, apiSecret, rt) ==
        p + [("api_sig", rt.md5(Auth.SignaturePreImage(p, apiSecret)))]
  {
    var base := SignedBase(apiMethod, apiKey, sessionKey);
    SignedBaseIs(apiMethod, apiKey, sessionKey);
    assert "api_sig" !in Keys(base) by {
      assert Keys(base) == ["method", "api_key"] + if sessionKey.Some? then ["sk"] else [];
    }
    var merged := Merge(base, params);
    MergeKeys(base, params, "api_sig");
    var p := ConvertValues(merged, rt.convert);
    assert Keys(p) == Keys(merged);
    SetAppends(p, "api_sig", rt.md5(Auth.SignaturePreImage(p, apiSecret)));
  }

  /** Without a session, the signed request holds what call() would send,
      name by name: a parameter the caller passes overrides the built-in one
      of the same name, and every value is converted. */
  lemma SignedCallLookup(apiMethod: string, apiKey: string, params: Params, apiSecret: string, rt: Runtime,
                         name: string)
    requires UniqueKeys(params) && name != "api_sig"
    ensures Lookup(SignedCallParams(apiMethod, apiKey, None, params, apiSecret, rt), name) ==
      Lookup(CallParams(apiMethod, apiKey, params, rt.convert), name)
  {
    var p := UnsignedParams(apiMethod, apiKey, None, params, rt.convert);
    assert p == CallParams(apiMethod, apiKey, params, rt.convert);
    SetLookup(p, "api_sig", rt.md5(Auth.SignaturePreImage(p, apiSecret)), name);
  }

  // ---------------------------------------------------------------------------
  // Fetching and the envelope

  /** The cURL options of a request: a POST sends the query as its body, any
      other method puts it after "?" in the URL. */
  function CurlRequestFor(query: string, requestMethod: string): (r: CurlRequest)
    ensures r.post <==> requestMethod == "POST"
    ensures r.post ==> r.url == Http.ApiUrl && r.postFields == query
    ensures !r.post ==> r.url == Http.ApiUrl + "?" + query
  {
    if requestMethod == "POST" then CurlRequest(Http.ApiUrl, true, query)
    else CurlRequest(Http.ApiUrl + "?" + query, false, "")
  }

  /** The response header lines and body a fetch yields. */
  datatype Exchange = Exchange(headerLines: seq<string>, body: string)

  function Fetch(kind: Kind, query: string, requestMethod: string, rt: Runtime): Exchange {
    match kind
    case Curl =>
      var resp := rt.curlExec(CurlRequestFor(query, requestMethod));
      Exchange(resp.headerLines, resp.body)
    case Socket =>
      var lines := rt.socketExchange(Http.RequestText(requestMethod, query, rt.phpVersion));
      Exchange(Http.HeaderLines(lines), Http.Body(lines))
  }

  /** Reading the envelope: status "ok" returns the first child, any other
      status throws the error text and code; a response the parser rejects
      throws the parser's exception. */
  function Interpret(envelope: Option<Envelope>): (r: CallResult)
    ensures envelope.None? <==> r.Malformed?
    ensures r.Returned? ==> r.node == envelope.value.firstChild
    ensures r.ApiError? ==>
      r.message == Util.ToString(envelope.value.error) && r.code == Php.IntVal(envelope.value.errorCode)
  {
    match envelope
    case None => Malformed
    case Some(e) =>
      if Util.ToString(e.status) == "ok" then Returned(e.firstChild)
      else
        Util.ToIntegerIsIntVal(e.errorCode);
        ApiError(Util.ToString(e.error), Util.ToInteger(e.errorCode))
  }

  /** The status must be exactly "ok": padded or empty statuses are errors. */
  lemma InterpretOkIff(e: Envelope)
    ensures Interpret(Some(e)).Returned? <==> e.status == "ok"
  {
    if e.status == "ok" {
      Util.ToStringOfWord(e.status);
    }
  }

  // ---------------------------------------------------------------------------
  // The cache flow

  /** The response is served from the cache: there is a cache, it holds the
      key, and the entry is not expired. */
  predicate Hit(hasCache: bool, entries: map<string, Cache.Entry>, hash: string, now: int) {
    hasCache && hash in entries && !Cache.ExpiredIn(entries, hash, now)
  }

  /** What is stored after a fetch: under the Expires header's time when the
      response has one, else for the policy's time to live when that is
      positive, else nothing. */
  function StoreAfterFetch(entries: map<string, Cache.Entry>, hash: string, body: string,
                           headers: map<string, string>, ttl: real, rt: Runtime): (r: map<string, Cache.Entry>)
    ensures "Expires" in headers ==>
      r == entries[hash := Cache.Entry(body, Http.ExpiresAt(headers["Expires"], rt.strtotime))]
    ensures "Expires" !in headers && ttl > 0.0 ==> r == entries[hash := Cache.Entry(body, rt.now as real + ttl)]
    ensures "Expires" !in headers && ttl <= 0.0 ==> r == entries
  {
    if "Expires" in headers then
      entries[hash := Cache.Entry(body, Http.ExpiresAt(headers["Expires"], rt.strtotime))]
    else if ttl > 0.0 then entries[hash := Cache.Entry(body, rt.now as real + ttl)]
    else entries
  }

  /** The result of internalCall, the cache entries after it and the
      caller's header array after it. */
  datatype Outcome = Outcome(result: CallResult, entries: map<string, Cache.Entry>, headers: map<string, string>)

  /** internalCall as a function of the state before it. `hasCache` says
      whether the caller has a cache and `entries` are that cache's contents;
      `ttl` is the cache policy's expiration time for `params`. */
  function Serve(kind: Kind, hasCache: bool, entries: map<string, Cache.Entry>, ttl: real,
                 headers: map<string, string>, params: Params, requestMethod: string, rt: Runtime): Outcome
  {
    var hash := rt.sha1(Cache.HashPreImage(params));
    if Hit(hasCache, entries, hash, rt.now) then
      Outcome(Interpret(rt.parseXml(entries[hash].data)), entries, headers)
    else
      var ex := Fetch(kind, rt.buildQuery(params), requestMethod, rt);
      var hs := Http.HeaderMap(map[], ex.headerLines);
      var entries' := if hasCache then StoreAfterFetch(entries, hash, ex.body, hs, ttl, rt) else entries;
      Outcome(Interpret(rt.parseXml(ex.body)), entries', hs)
  }

  /** Serve with the time to live read from the cache's policy: the policy's
      expiration time for `params` when there is a cache. */
  function ServeWithPolicy(kind: Kind, hasCache: bool, entries: map<string, Cache.Entry>,
                           weeklyChartsExpiration: int, headers: map<string, string>, params: Params,
                           requestMethod: string, rt: Runtime): Outcome
  {
    var ttl := if hasCache then CachePolicy.ExpirationTime(params, weeklyChartsExpiration) else 0.0;
    Serve(kind, hasCache, entries, ttl, headers, params, requestMethod, rt)
  }

  /** Without a cache every call fetches, and nothing is stored. */
  lemma NoCacheAlwaysFetches(kind: Kind, entries: map<string, Cache.Entry>, ttl: real,
                             headers: map<string, string>, params: Params, requestMethod: string, rt: Runtime)
    ensures var o := Serve(kind, false, entries, ttl, headers, params, requestMethod, rt);
      var ex := Fetch(kind, rt.buildQuery(params), requestMethod, rt);
      o.entries == entries && o.result == Interpret(rt.parseXml(ex.body)) &&
      o.headers == Http.HeaderMap(map[], ex.headerLines)
  {
  }

  /** A hit reads the cached response: the transport is not used (any other
      transport, and the other kind of caller, give the same outcome), and
      neither the cache nor the header array changes. */
  lemma HitIgnoresTransport(kind: Kind, kind': Kind, entries: map<string, Cache.Entry>, ttl: real,
                            headers: map<string, string>, params: Params, requestMethod: string, rt: Runtime,
                            curlExec: CurlRequest -> CurlResponse, socketExchange: string -> seq<string>)
    requires Hit(true, entries, rt.sha1(Cache.HashPreImage(params)), rt.now)
    ensures var o := Serve(kind, true, entries, ttl, headers, params, requestMethod, rt);
      var rt' := rt.(curlExec := curlExec, socketExchange := socketExchange);
      o == Serve(kind', true, entries, ttl, headers, params, requestMethod, rt') &&
      o.entries == entries && o.headers == headers &&
      o.result == Interpret(rt.parseXml(entries[rt.sha1(Cache.HashPreImage(params))].data))
  {
  }

  /** On a miss, a response with an Expires header is stored until that
      time, whatever the policy says. */
  lemma ExpiresHeaderWins(kind: Kind, entries: map<string, Cache.Entry>, ttl: real, ttl': real,
                          headers: map<string, string>, params: Params, requestMethod: string, rt: Runtime)
    requires var hash := rt.sha1(Cache.HashPreImage(params));
      !Hit(true, entries, hash, rt.now)
    requires "Expires" in Http.HeaderMap(map[], Fetch(kind, rt.buildQuery(params), requestMethod, rt).headerLines)
    ensures var o := Serve(kind, true, entries, ttl, headers, params, requestMethod, rt);
      var ex := Fetch(kind, rt.buildQuery(params), requestMethod, rt);
      var hs := Http.HeaderMap(map[], ex.headerLines);
      o.entries == entries[rt.sha1(Cache.HashPreImage(params)) :=
                           Cache.Entry(ex.body, Http.ExpiresAt(hs["Expires"], rt.strtotime))] &&
      o.entries == Serve(kind, true, entries, ttl', headers, params, requestMethod, rt).entries
  {
  }

  /** On a miss without Expires, a request the policy does not cache leaves
      the cache as it was, an expired old entry included. */
  lemma UncacheableLeavesCache(kind: Kind, entries: map<string, Cache.Entry>, ttl: real,
                               headers: map<string, string>, params: Params, requestMethod: string, rt: Runtime)
    requires !Hit(true, entries, rt.sha1(Cache.HashPreImage(params)), rt.now)
    requires "Expires" !in Http.HeaderMap(map[], Fetch(kind, rt.buildQuery(params), requestMethod, rt).headerLines)
    requires ttl <= 0.0
    ensures Serve(kind, true, entries, ttl, headers, params, requestMethod, rt).entries == entries
  {
  }

  /** The fetch does not involve the parser. */
  lemma FetchIgnoresParser(kind: Kind, query: string, requestMethod: string, rt: Runtime,
                           parseXml: string -> Option<Envelope>)
    ensures Fetch(kind, query, requestMethod, rt.(parseXml := parseXml)) == Fetch(kind, query, requestMethod, rt)
  {
  }

  /** The response is stored before its envelope is read: what is cached does
      not depend on the parser at all, so an error response is cached like
      any other. */
  lemma StoreIgnoresEnvelope(kind: Kind, entries: map<string, Cache.Entry>, ttl: real,
                             headers: map<string, string>, params: Params, requestMethod: string, rt: Runtime,
                             parseXml: string -> Option<Envelope>)
    ensures Serve(kind, true, entries, ttl, headers, params, requestMethod, rt).entries ==
            Serve(kind, true, entries, ttl, headers, params, requestMethod, rt.(parseXml := parseXml)).entries
  {
    FetchIgnoresParser(kind, rt.buildQuery(params), requestMethod, rt, parseXml);
  }

  /** A response cached for the policy's time to live is served again, with
      the same result and without fetching, by every repeat of the request
      up to the stored expiration time. */
  lemma RepeatWithinTtlIsServedFromCache(kind: Kind, kind': Kind, entries: map<string, Cache.Entry>, ttl: real,
                                         headers: map<string, string>, headers': map<string, string>,
                                         params: Params, requestMethod: string, requestMethod': string,
                                         rt: Runtime, later: int)
    requires !Hit(true, entries, rt.sha1(Cache.HashPreImage(params)), rt.now)
    requires "Expires" !in Http.HeaderMap(map[], Fetch(kind, rt.buildQuery(params), requestMethod, rt).headerLines)
    requires ttl > 0.0
    requires later <= Php.Trunc(rt.now as real + ttl)
    ensures var o := Serve(kind, true, entries, ttl, headers, params, requestMethod, rt);
      var o' := Serve(kind', true, o.entries, ttl, headers', params, requestMethod', rt.(now := later));
      Hit(true, o.entries, rt.sha1(Cache.HashPreImage(params)), later) &&
      o'.result == o.result && o'.entries == o.entries
  {
  }

  // ---------------------------------------------------------------------------
  // The caller objects

  /** The socket caller's body loop: the lines from `start` up to the next
      blank line (or the end), concatenated. */
  method ReadBody(lines: seq<string>, start: nat) returns (response: string)
    requires start <= |lines|
    ensures response == Http.Concat(lines[start..Http.NextBlank(lines, start)])
  {
    response := "";
    var i := start;
    while i < |lines| && lines[i] != Http.Blank
      invariant start <= i <= |lines|
      invariant forall j :: start <= j < i ==> lines[j] != Http.Blank
      invariant response == Http.Concat(lines[start..i])
    {
      assert lines[start..i + 1][..i - start] == lines[start..i];
      response := response + lines[i];
      i := i + 1;
    }
    Http.NextBlankIs(lines, start, i);
  }


  class Caller {
    const kind: Kind
    var apiKey: string
    var apiSecret: string
    /** The cache, null when caching is off. */
    var cache: Cache.MemoryCache?
    /** The header array the header callback fills during a fetch. */
    var headers: map<string, string>

    /** The cURL caller starts without a cache. */
    constructor Curl()
      ensures kind == Kind.Curl && cache == null
      ensures apiKey == "" && apiSecret == "" && headers == map[]
    {
      kind := Kind.Curl;
      apiKey := "";
      apiSecret := "";
      cache := null;
      headers := map[];
    }

    /** The socket caller starts with a cache of its own. */
    constructor Socket()
      ensures kind == Kind.Socket && cache != null && fresh(cache) && cache.entries == map[]
      ensures fresh(cache.policy) && cache.policy.weeklyChartsExpiration == CachePolicy.WEEK
      ensures apiKey == "" && apiSecret == "" && headers == map[]
    {
      kind := Kind.Socket;
      apiKey := "";
      apiSecret := "";
      cache := new Cache.MemoryCache();
      headers := map[];
    }

    method SetApiKey(key: string)
      modifies this`apiKey
      ensures apiKey == key
    {
      apiKey := key;
    }

    function GetApiKey(): (key: string)
      reads this
      ensures key == apiKey
    {
      apiKey
    }

    method SetApiSecret(secret: string)
      modifies this`apiSecret
      ensures apiSecret == secret
    {
      apiSecret := secret;
    }

    function GetApiSecret(): (secret: string)
      reads this
      ensures secret == apiSecret
    {
      apiSecret
    }

    /** setCache(null) turns caching off. */
    method SetCache(c: Cache.MemoryCache?)
      modifies this`cache
      ensures cache == c
    {
      cache := c;
    }

    function GetCache(): (c: Cache.MemoryCache?)
      reads this
      ensures c == cache
    {
      cache
    }

    /** The header callback: records the line in the header array and
        returns the line's length. */
    method Header(line: string) returns (n: nat)
      modifies this`headers
      ensures headers == Http.AddHeader(old(headers), line)
      ensures n == |line|
    {
      headers := Http.AddHeader(headers, line);
      n := |line|;
    }

    /** The socket caller's header loop: header lines up to the first blank
        line (or the end), each through the header callback; `i` is where it
        stopped. */
    method ReadHeaders(lines: seq<string>) returns (i: nat)
      modifies this`headers
      ensures i == Http.NextBlank(lines, 0)
      ensures headers == Http.HeaderMap(map[], Http.HeaderLines(lines))
    {
      headers := map[];
      i := 0;
      while i < |lines| && lines[i] != Http.Blank
        invariant i <= |lines|
        invariant forall j :: 0 <= j < i ==> lines[j] != Http.Blank
        invariant headers == Http.HeaderMap(map[], lines[..i])
      {
        assert lines[..i + 1][..i] == lines[..i];
        var _ := Header(lines[i]);
        i := i + 1;
      }
      Http.NextBlankIs(lines, 0, i);
    }

    /** The socket caller's reading of the response: the header loop, then
        the body loop when the header ended with a blank line. */
    method ReadResponse(lines: seq<string>) returns (response: string)
      modifies this`headers
      ensures headers == Http.HeaderMap(map[], Http.HeaderLines(lines))
      ensures response == Http.Body(lines)
    {
      var i := ReadHeaders(lines);
      if i < |lines| {
        response := ReadBody(lines, i + 1);
      } else {
        response := "";
      }
    }

    /** cURL calls the header callback once per header line, in order. */
    method ReceiveCurlHeaders(headerLines: seq<string>)
      modifies this`headers
      ensures headers == Http.HeaderMap(map[], headerLines)
    {
      headers := map[];
      for i := 0 to |headerLines|
        invariant headers == Http.HeaderMap(map[], headerLines[..i])
      {
        assert headerLines[..i + 1][..i] == headerLines[..i];
        var _ := Header(headerLines[i]);
      }
      assert headerLines[..|headerLines|] == headerLines;
    }

    /** The fetch: cURL with its header callback, or the socket request and
        the reading of the response. */
    method FetchResponse(query: string, requestMethod: string, rt: Runtime) returns (response: string)
      modifies this`headers
      ensures response == Fetch(kind, query, requestMethod, rt).body
      ensures headers == Http.HeaderMap(map[], Fetch(kind, query, requestMethod, rt).headerLines)
    {
      if kind == Kind.Curl {
        var resp := rt.curlExec(CurlRequestFor(query, requestMethod));
        ReceiveCurlHeaders(resp.headerLines);
        response := resp.body;
      } else {
        var lines := rt.socketExchange(Http.RequestText(requestMethod, query, rt.phpVersion));
        response := ReadResponse(lines);
      }
    }

    /** Storing a fetched response: under the Expires header's time, or for
        the policy's time to live when that is positive (StoreAfterFetch
        states the three cases). */
    method StoreResponse(hash: string, response: string, params: Params, rt: Runtime)
      requires cache != null
      modifies cache`entries
      ensures cache.entries == StoreAfterFetch(old(cache.entries), hash, response, headers,
        CachePolicy.ExpirationTime(params, cache.policy.weeklyChartsExpiration), rt)
    {
      if "Expires" in headers {
        cache.Store(hash, response, Http.ExpiresAt(headers["Expires"], rt.strtotime));
      } else {
        var ttl := cache.GetPolicy().GetExpirationTime(params);
        if ttl > 0.0 {
          cache.Store(hash, response, rt.now as real + ttl);
        }
      }
    }

    /** internalCall: serve from the cache or fetch, store, read the
        envelope; the outcome is the one Serve describes. */
    method InternalCall(params: Params, requestMethod: string, rt: Runtime) returns (result: CallResult)
      modifies this`headers, cache
      ensures cache == old(cache) && (cache != null ==> cache.policy == old(cache.policy))
      ensures var o := ServeWithPolicy(kind, cache != null, if cache != null then old(cache.entries) else map[],
                                       if cache != null then old(cache.policy.weeklyChartsExpiration) else 0,
                                       old(headers), params, requestMethod, rt);
        result == o.result && headers == o.headers && (cache != null ==> cache.entries == o.entries)
    {
      ghost var entries := if cache != null then cache.entries else map[];
      ghost var wce := if cache != null then cache.policy.weeklyChartsExpiration else 0;
      var hash := Cache.CreateHash(params, rt.sha1);
      var response: string;
      if cache != null && cache.Contains(hash) && !cache.IsExpired(hash, rt.now) {
        response := cache.Load(hash).value;
      } else {
        ghost var ex := Fetch(kind, rt.buildQuery(params), requestMethod, rt);
        response := FetchResponse(rt.buildQuery(params), requestMethod, rt);
        if cache != null {
          StoreResponse(hash, response, params, rt);
          assert cache.entries == StoreAfterFetch(entries, hash, ex.body, headers,
            CachePolicy.ExpirationTime(params, wce), rt);
        }
      }
      result := Interpret(rt.parseXml(response));
    }

    /** call(): assemble the parameters and call. */
    method Call(rt: Runtime, apiMethod: string, params: Params := [], requestMethod: string := "GET")
      returns (result: CallResult)
      modifies this`headers, cache
      ensures cache == old(cache) && (cache != null ==> cache.policy == old(cache.policy))
      ensures var p := CallParams(apiMethod, apiKey, params, rt.convert);
        var o := ServeWithPolicy(kind, cache != null, if cache != null then old(cache.entries) else map[],
                                 if cache != null then old(cache.policy.weeklyChartsExpiration) else 0,
                                 old(headers), p, requestMethod, rt);
        result == o.result && headers == o.headers && (cache != null ==> cache.entries == o.entries)
    {
      var p := Merge([("method", apiMethod), ("api_key", apiKey)], params);
      p := ConvertValues(p, rt.convert);
      result := InternalCall(p, requestMethod, rt);
    }

    /** signedCall(): assemble the parameters, sign them, and call. */
    method SignedCall(rt: Runtime, apiMethod: string, params: Params := [], sessionKey: Option<string> := None,
                      requestMethod: string := "GET")
      returns (result: CallResult)
      modifies this`headers, cache
      ensures cache == old(cache) && (cache != null ==> cache.policy == old(cache.policy))
      ensures var p := SignedCallParams(apiMethod, apiKey, sessionKey, params, apiSecret, rt);
        var o := ServeWithPolicy(kind, cache != null, if cache != null then old(cache.entries) else map[],
                                 if cache != null then old(cache.policy.weeklyChartsExpiration) else 0,
                                 old(headers), p, requestMethod, rt);
        result == o.result && headers == o.headers && (cache != null ==> cache.entries == o.entries)
    {
      var base := [("method", apiMethod), ("api_key", apiKey)];
      if sessionKey.Some? {
        base := Set(base, "sk", sessionKey.value);
      }
      var p := ConvertValues(Merge(base, params), rt.convert);
      var sig := Auth.GetApiSignature(p, apiSecret, rt.md5);
      p := Set(p, "api_sig", sig);
      result := InternalCall(p, requestMethod, rt);
    }
  }
}
