# php-lastfm-api: the request callers and the response cache

A Dafny model of the core of the PHP last.fm API client library. This core:

- assembles the request parameters of `call()` and `signedCall()`;
- signs a request with its API secret (`Auth::getApiSignature`);
- derives the cache key (`Cache::createHash`);
- consults the in-memory cache and its default expiration policy;
- on a miss, fetches the response over cURL or over a raw socket, stores it (under the `Expires` header's time, or for the policy's time to live) and reads the response envelope.

Around this sit the conversion helpers of `Util`, the `Media` image lookup, the `PaginatedResult` page arithmetic and iterator, the caller factory with its singletons, the four authentication calls and the class autoloader.

The modules follow the source files:

- `Php` and `Order` model the PHP built-ins the code relies on: trim, intval, stripos, explode's search, round, and the sort order of sort/ksort.
- `Params` models a PHP string-keyed array with `$a[k] = v`, `array_merge` and `in_array`.
- `Util`, `Media`, `Paginated`, `Auth` and `AuthSessions` model their source files.
- `CachePolicy` and `Cache` model src/cache.
- `Http` models the header callback and the socket caller's request and response text.
- `Callers` models Caller, CurlCaller and SocketCaller: one `Caller` class with a `Kind` tag stands for the two subclasses.
- `Factory` and `Autoload` model CallerFactory and lastfm.api.php.

Everything the model cannot see comes in as a parameter. For the callers it is a `Runtime` value: md5, sha1, strtotime, `mb_convert_encoding`, `http_build_query`, the XML parser, `phpversion()`, the clock, the cURL transfer and the socket exchange. The autoloader takes realpath, is_file and the class table the same way.

`Callers.Serve` describes one `internalCall` as a function of the state before it. The methods are proved against it, and the lemmas about caching are stated on it.

Where the library's own description and its code disagree, the model follows the code:

- The cache key hashes the sorted parameter VALUES with their positions. The names do not take part, so two different requests can share a key (`Cache.SwappedValuesCollide`).
- The policy looks for "to" and "from" among the parameter values (`in_array`), not among the names. A chart request with parameters named from and to gets the weekly-charts expiration, not a year (`CachePolicy.TimestampRangeNotAYear`).
- A response is stored before its envelope is read, so an API error response is cached like any other (`Callers.StoreIgnoresEnvelope`).
- The `Expires` header is looked up by its exact name: header names are case-sensitive here.
- In the source a transport failure is not a distinct error: cURL's `false` or an empty socket body goes on to the XML parser and is cached like a response (src/caller/CurlCaller.php:105-126). The model leaves transport failures out (see Left out).

## Model

| member | source | states |
|---|---|---|
| Php.Trim | src/Util.php:19 | trim() gives an infix of the string that neither starts nor ends with a stripped character |
| Php.TrimShape | src/Util.php:19 | the string is stripped characters, then trim($s), then stripped characters |
| Php.TrimEmptyIff | src/Util.php:19 | trim($s) is empty exactly when every character is stripped |
| Php.IntValOfNatToString | src/caller/SocketCaller.php:80 | the decimal text of a length reads back through intval as the length |
| Php.IntValSign | src/Util.php:31 | intval of a string: a blank string reads 0, and only a minus sign after the leading white space gives a negative number |
| Php.IntVal | src/Util.php:31 | intval of a string: the number written by its leading white space, optional sign and digits; IntValSign, IntValOfDigits, IntValOfNatToString and the Util lemmas on intval state it |
| Php.IntValOfDigits | src/caller/CurlCaller.php:137 | a run of digits reads as its decimal value, and after a minus sign as its negation, as intval reads an error code |
| Php.FindSpec | src/caller/CurlCaller.php:151 | explode's search finds the first occurrence of the separator, and None exactly when there is none |
| Php.NotContainsIgnoringCase | src/cache/DefaultCachePolicy.php:74 | stripos finds nothing when a character of the needle never occurs in the haystack, in any case |
| Php.NotContainsIgnoringCasePair | src/cache/DefaultCachePolicy.php:74 | stripos finds nothing when the needle's first two characters never stand side by side, in any case |
| Php.ContainsIgnoringCaseAt | src/cache/DefaultCachePolicy.php:74 | one case-insensitive occurrence is enough for stripos |
| Php.Trunc | src/cache/MemoryCache.php:87 | intval of a float truncates toward zero |
| Php.RoundHalfAwayFromZero | src/PaginatedResult.php:96 | round() lands within half of its argument, halves away from zero |
| Order.SortBySorted | src/Auth.php:20 | the insertion sort standing for ksort/sort yields a sorted arrangement |
| Order.SortBy | src/Auth.php:20 | the sorted sequence is a permutation of the input |
| Order.SortedUnique | src/Auth.php:20 | two sorted permutations with distinct keys are equal |
| Order.SortByDependsOnlyOnElements | src/cache/Cache.php:102 | when the key determines the element, the sort result depends only on the multiset of elements |
| Order.LexLeqTotal | src/Auth.php:20 | the string order is total |
| Order.LexLeqTransitive | src/Auth.php:20 | the string order is transitive |
| Order.LexLeqAntisymmetric | src/Auth.php:20 | the string order is antisymmetric |
| Params.Keys | src/caller/Caller.php:63 | array_keys lists the names in order |
| Params.Values | src/cache/DefaultCachePolicy.php:75 | array_values lists the values in order |
| Params.Lookup | src/caller/Caller.php:98 | `$p[$name]` is present exactly when the name is a key, and is that key's value |
| Params.SetKeys | src/caller/Caller.php:90 | `$p[$k] = $v` keeps the names in place and appends a new name at the end |
| Params.SetLookup | src/caller/Caller.php:98 | after `$p[$k] = $v`, k maps to v and every other name keeps its value |
| Params.SetAppends | src/caller/Caller.php:98 | assigning a name the array lacks appends the pair |
| Params.SetKeepsUniqueKeys | src/caller/Caller.php:90 | the assignment never duplicates a name |
| Params.MergeKeepsLeadingKeys | src/caller/Caller.php:63 | array_merge keeps the first array's names at the front, in order |
| Params.MergeLookup | src/caller/Caller.php:63 | after array_merge a name has its value in the second array if there, else in the first |
| Params.MergeKeys | src/caller/Caller.php:63 | the merged names are those of either array |
| Params.MergeKeepsUniqueKeys | src/caller/Caller.php:63 | array_merge never duplicates a name |
| Params.ConvertValues | src/caller/Caller.php:64 | toUTF8 on a parameter array converts every value and keeps every name and its place |
| Util.FilledIff | src/Util.php:19 | the guard `$var && trim($var)` holds exactly for strings that are not "0", do not trim to "0" and hold an unstripped character |
| Util.ToString | src/Util.php:18-20 | toString gives the string itself when filled, and "" otherwise |
| Util.ToInteger | src/Util.php:30-32 | toInteger gives intval of a filled string, and 0 otherwise |
| Util.ToIntegerIsIntVal | src/Util.php:30-32 | the guard never changes toInteger's result: it always equals intval |
| Util.IntValOfTrimmed | src/Util.php:31 | intval of a string of stripped characters is 0 |
| Util.IntValOfPaddedZero | src/Util.php:31 | intval of a "0" padded with stripped characters is 0 |
| Util.IntValOfNonNumeric | src/Util.php:31 | intval of a string starting with no space, sign or digit is 0 |
| Util.ToStringOfWord | src/Util.php:18-20 | a word other than "0" with no stripped character at either end is returned unchanged |
| Util.TrimOfPaddedWord | src/Util.php:19 | a word with one leading space trims back to the word |
| Util.ToBoolean | src/Util.php:54-63 | "true" and "false" by name; anything else is true exactly when its intval is non-zero |
| Util.UntrimmedTrueIsFalse | src/Util.php:54-63 | " true" trims to "true" yet converts to false, because the switch compares the untrimmed string |
| Util.ToTimestamp | src/Util.php:73-75 | toTimestamp gives 0 for an unfilled string, and strtotime of the string otherwise |
| Util.ToImageType | src/Util.php:85-102 | a known size name maps to the constant at its index; anything else maps to IMAGE_UNKNOWN |
| Util.SizeOfName | src/Util.php:86-101 | the switch yields a size constant whose name is the string, and IMAGE_UNKNOWN exactly for a string that names no size |
| Util.ToImageTypeOfName | src/Util.php:85-102 | stated on the raw input: a size name yields its own constant, any other string IMAGE_UNKNOWN |
| Util.ToImageTypeInjective | src/Util.php:85-102 | two strings with the same known size are the same name |
| Util.ToUTF8 | src/Util.php:112-118 | a string is converted; an array keeps its length; ToUTF8Converts states that every nested leaf is converted |
| Util.ToUTF8Converts | src/Util.php:112-118 | toUTF8 converts every string at every level of nesting and keeps every key in its place, recursing through array_map |
| Util.ConvertedUnique | src/Util.php:112-118 | a value has exactly one conversion, so the leaf-by-leaf relation determines toUTF8's result |
| Util.ToUTF8KeepsShape | src/Util.php:112-118 | toUTF8 keeps every key, in order, at every level of nesting |
| Util.ToUTF8Identity | src/Util.php:112-118 | with an identity converter toUTF8 changes nothing |
| Util.ToUTF8OfParams | src/Util.php:112-118 | on a flat parameter array toUTF8 is the value-by-value conversion the callers use |
| Media.GetImage | src/Media.php:119-132 | with a size, the image of that size or null; without one, the image of the largest known size present, null when none is |
| Paginated.PageOf | src/PaginatedResult.php:77-79 | the current page p satisfies (p - 1) * itemsPerPage = startIndex; a zero page size is a division error |
| Paginated.PageOfExact | src/PaginatedResult.php:77-79 | a start index of k pages gives page k + 1 |
| Paginated.PageCount | src/PaginatedResult.php:95-97 | the page count is the whole number nearest totalResults / itemsPerPage, a quotient halfway between two going away from zero; a zero page size is a division error |
| Paginated.PageCountRounds | src/PaginatedResult.php:95-97 | the count rounds rather than taking the ceiling: 41 results of 10 per page give 4 pages |
| Paginated.Visible | src/PaginatedResult.php:110-128 | a foreach visits the results in order, with their keys, up to the first false element |
| Paginated.PaginatedResult.constructor | src/PaginatedResult.php:47-52 | the constructor stores its four arguments and the pointer starts at the first element |
| Paginated.PaginatedResult.GetCurrentPage | src/PaginatedResult.php:77-79 | getCurrentPage is PageOf of the stored fields |
| Paginated.PaginatedResult.GetPages | src/PaginatedResult.php:95-97 | getPages is PageCount of the stored fields |
| Paginated.PaginatedResult.Count | src/PaginatedResult.php:130-132 | count() is the number of results |
| Paginated.PaginatedResult.Current | src/PaginatedResult.php:114-116 | current() is the element under the pointer, false past the end |
| Paginated.PaginatedResult.Key | src/PaginatedResult.php:118-120 | key() is the pointer's index, null past the end |
| Paginated.PaginatedResult.IsValid | src/PaginatedResult.php:126-128 | valid() holds exactly when the pointer is on an element that is not false |
| Paginated.PaginatedResult.Next | src/PaginatedResult.php:122-124 | next() advances the pointer by one, stays past the end, and returns the new current element |
| Paginated.PaginatedResult.Rewind | src/PaginatedResult.php:110-112 | rewind() puts the pointer on the first element |
| Paginated.PaginatedResult.GetResults | src/PaginatedResult.php:104-108 | getResults() rewinds and returns the results |
| Paginated.PaginatedResult.Iterate | src/PaginatedResult.php:110-128 | the rewind/valid/key/current/next loop visits exactly Visible(results) |
| Auth.SignaturePreImage | src/Auth.php:19-31 | the secret is always the suffix of the pre-image |
| Auth.GetApiSignature | src/Auth.php:19-31 | the ksort-then-concatenate loop hashes the pairs in name order followed by the secret |
| Auth.PreImageOfSortedArrangement | src/Auth.php:20-28 | the pre-image is any name-ordered arrangement of the entries, concatenated, then the secret |
| Auth.SignatureOrderIndependent | src/Auth.php:20 | two arrays with the same entries in any order have the same signature |
| Auth.NoSeparatorCollision | src/Auth.php:24-26 | {a: "bc"} and {ab: "c"} have the same pre-image and the same signature |
| Auth.AuthToken | src/Auth.php:47 | with apply_md5 off the token is md5(username . password) |
| Auth.AuthTokenOfHashedPassword | src/Auth.php:47 | hashing the password here equals passing md5(password) with apply_md5 off |
| AuthSessions.NoSessionKeySent | src/Auth.php:45-48 | a signed call without a session, and without an sk of the caller's, sends no sk |
| AuthSessions.SignedRequestSends | src/caller/Caller.php:80-102 | such a signed request sends its method and each parameter of the caller's, converted, and no sk |
| AuthSessions.MobileSessionRequest | src/Auth.php:44-51 | getMobileSession's request sends its method, the user name and the token built from user name and password, and no sk |
| AuthSessions.SessionRequest | src/Auth.php:62-68 | getSession's request sends its method and the token, and no sk |
| AuthSessions.TokenOf | src/Auth.php:78-82 | getToken succeeds exactly when the call returned: with the node's text when toString keeps it (filled), and "" when there is no node or its text is not filled; an error passes through |
| AuthSessions.GetMobileSession | src/Auth.php:44-51 | getMobileSession is signedCall("auth.getMobileSession", user name and token), no session, GET |
| AuthSessions.GetSession | src/Auth.php:62-68 | getSession is signedCall("auth.getSession", token), no session, GET |
| AuthSessions.GetToken | src/Auth.php:78-82 | getToken is signedCall("auth.getToken") read back as a string |
| AuthSessions.GetWebSession | src/Auth.php:92-96 | getWebSession is signedCall("auth.getWebSession"), no session, GET |
| CachePolicy.Durations | src/cache/DefaultCachePolicy.php:36-41 | a week is 604800 seconds; a month and a year are not whole seconds, and a year lies between 31556925 and 31556926 |
| CachePolicy.MethodOf | src/cache/DefaultCachePolicy.php:72 | `$params['method']`, with an absent method read as "" |
| CachePolicy.ExpirationTime | src/cache/DefaultCachePolicy.php:71-84 | charts: a year with "to" and "from" among the values, else the weekly-charts setting; otherwise a week for the fifteen methods and -1 for any other |
| CachePolicy.CacheableIff | src/cache/DefaultCachePolicy.php:71-84 | the time is positive exactly for a chart with a range, a chart while the setting is positive, or a weekly method |
| CachePolicy.SettingOnlyAffectsCharts | src/cache/DefaultCachePolicy.php:79 | only the chart branch without a range reads the setting |
| CachePolicy.SimilarArtistsCachedForAWeek | src/cache/DefaultCachePolicy.php:44 | artist.getSimilar is cached for 604800 seconds |
| CachePolicy.SimilarArtistsIsWeeklyMethod | src/cache/DefaultCachePolicy.php:44 | artist.getSimilar is no chart and is one of the weekly methods |
| CachePolicy.AlbumInfoNotCached | src/cache/DefaultCachePolicy.php:83 | album.getInfo is not cached |
| CachePolicy.ChartListNotCached | src/cache/DefaultCachePolicy.php:74 | user.getWeeklyChartList names "list", so it is neither a chart nor a weekly method and is not cached |
| CachePolicy.ChartListIsNotChart | src/cache/DefaultCachePolicy.php:74 | user.getWeeklyChartList names "list", so it is not a chart |
| CachePolicy.ChartListIsNotWeekly | src/cache/DefaultCachePolicy.php:43-59 | user.getWeeklyChartList is not one of the weekly methods |
| CachePolicy.TrackChartIsChart | src/cache/DefaultCachePolicy.php:74 | user.getWeeklyTrackChart counts as a chart |
| CachePolicy.WeeklyChartWithRange | src/cache/DefaultCachePolicy.php:75-76 | instance of the year rule: user.getWeeklyTrackChart with "to" and "from" among the values is cached for a year |
| CachePolicy.WeeklyChartWithoutRange | src/cache/DefaultCachePolicy.php:78-79 | instance of the setting rule: user.getWeeklyTrackChart without "to" among the values is cached for the weekly-charts setting |
| CachePolicy.TimestampRangeNotAYear | src/cache/DefaultCachePolicy.php:75 | a chart whose from/to parameters hold timestamps gets the weekly-charts setting, not a year |
| CachePolicy.DefaultCachePolicy.constructor | src/cache/DefaultCachePolicy.php:35-62 | the weekly-charts expiration starts at a week |
| CachePolicy.DefaultCachePolicy.GetExpirationTime | src/cache/DefaultCachePolicy.php:71-84 | getExpirationTime is ExpirationTime under the current setting |
| CachePolicy.DefaultCachePolicy.GetWeeklyChartsExpiration | src/cache/DefaultCachePolicy.php:92-94 | the getter returns the setting |
| CachePolicy.DefaultCachePolicy.SetWeeklyChartsExpiration | src/cache/DefaultCachePolicy.php:101-103 | the setter replaces the setting |
| Cache.CreateHash | src/cache/Cache.php:99-109 | the sort-then-concatenate loop gives sha1 of the values in sorted order, each preceded by its position |
| Cache.HashDependsOnlyOnValues | src/cache/Cache.php:102-106 | under the byte order modelled for sort(), the key depends only on the multiset of parameter values |
| Cache.ValuesOfPermutation | src/cache/Cache.php:102 | rearranging the entries rearranges their values |
| Cache.HashPermutationInvariant | src/cache/Cache.php:102-106 | under the byte order modelled for sort(), the key does not depend on the order of the parameters |
| Cache.SwappedValuesCollide | src/cache/Cache.php:102-106 | two different requests whose values are swapped between two names share a key |
| Cache.LoadFrom | src/cache/MemoryCache.php:43-45 | load gives the stored data, and null for an absent hash |
| Cache.ExpiryBoundary | src/cache/MemoryCache.php:84-88 | an entry is fresh at its whole expiration second and expired from the next |
| Cache.FractionalExpiryCutDown | src/cache/MemoryCache.php:87 | a fractional expiration is cut down before comparing with the clock |
| Cache.AbsentIsExpired | src/cache/MemoryCache.php:85-87 | an absent hash reads as expiration 0, so it is expired at every positive time |
| Cache.ExpiredIn | src/cache/MemoryCache.php:84-88 | an entry with a non-negative expiration is expired exactly when the clock has passed it; an absent hash is expired at every positive time |
| Cache.MemoryCache.constructor | src/cache/MemoryCache.php:21-25 | a new cache is empty and has a fresh default policy |
| Cache.MemoryCache.GetPolicy | src/cache/Cache.php:31-33 | getPolicy returns the policy |
| Cache.MemoryCache.SetPolicy | src/cache/Cache.php:41-43 | setPolicy replaces the policy |
| Cache.MemoryCache.Load | src/cache/MemoryCache.php:43-45 | load is LoadFrom of the entries |
| Cache.MemoryCache.Contains | src/cache/MemoryCache.php:33-35 | contains() holds exactly when load() finds data for the hash |
| Cache.MemoryCache.IsExpired | src/cache/MemoryCache.php:84-88 | isExpired() holds for a stored entry with a non-negative expiration exactly when the clock has passed it, and for an absent hash at every positive time |
| Cache.MemoryCache.Store | src/cache/MemoryCache.php:63-68 | store replaces the entry for the hash, after which load returns the data; every other entry is kept |
| Cache.MemoryCache.Remove | src/cache/MemoryCache.php:52-54 | remove drops the hash and keeps every other entry; removing twice is removing once |
| Cache.MemoryCache.Clear | src/cache/MemoryCache.php:74-76 | after clear no hash is contained |
| Http.SplitHeaderSpec | src/caller/CurlCaller.php:150-157 | a line splits exactly when it holds ": "; name, ": " and value give back the line, and the name holds no ": " |
| Http.HeaderMapLastWins | src/caller/CurlCaller.php:156 | the last line for a name sets its trimmed value |
| Http.HeaderMapAbsent | src/caller/CurlCaller.php:153-157 | a name no line carries is absent |
| Http.HeaderMapSnoc | src/caller/SocketCaller.php:101-103 | one more line goes through the header callback |
| Http.PostRequestShape | src/caller/SocketCaller.php:76-82 | a POST request ends with the query, and its Content-Length reads back as the query's length |
| Http.NonPostIsGet | src/caller/SocketCaller.php:84-89 | any method other than POST sends "GET " + path + "?" + query and ends with the blank line |
| Http.NextBlank | src/caller/SocketCaller.php:101 | the first blank line at or after a position, or the end |
| Http.NextBlankIs | src/caller/SocketCaller.php:101 | any position that is blank, or the end, with no blank line before it is NextBlank |
| Http.HeaderLinesOf | src/caller/SocketCaller.php:101-103 | the header lines end at the first blank line |
| Http.HeaderLines | src/caller/SocketCaller.php:101-103 | the header lines are the longest prefix of the response lines without a blank line, followed by a blank line or the end |
| Http.BodyLines | src/caller/SocketCaller.php:107-109 | the body lines hold no blank line |
| Http.BodyOf | src/caller/SocketCaller.php:106-109 | the body is the lines between the first blank line and the next, concatenated |
| Http.NoBlankNoBody | src/caller/SocketCaller.php:101-109 | a response whose header never ends has an empty body |
| Http.ExpiresAt | src/caller/CurlCaller.php:110-113 | the Expires time is strtotime of the header, with a failure stored as 0 |
| Callers.SignedBaseIs | src/caller/Caller.php:83-91 | the built-in parameters are method and api_key, then sk with a session |
| Callers.CallParamsLeadingKeys | src/caller/Caller.php:57-64 | a call's parameters always start with method and api_key, in that order |
| Callers.CallParams | src/caller/Caller.php:55-64 | the parameters call() sends: method and api_key merged with the caller's parameters, every value converted; CallParamsLeadingKeys and CallParamsLookup state their order and values |
| Callers.CallParamsLookup | src/caller/Caller.php:57-64 | a parameter the caller passes overrides the built-in one; every value is converted |
| Callers.SignedCallSessionKey | src/caller/Caller.php:88-95 | sk is sent exactly with a session or when the caller passes one; with a session and no sk of the caller's it is the session key |
| Callers.SignedCallSignature | src/caller/Caller.php:97-98 | without a caller-supplied api_sig, the signed request is the unsigned one with api_sig appended, holding md5 of its pre-image |
| Callers.SignedCallLookup | src/caller/Caller.php:80-98 | without a session, every name but api_sig has the value call() would send |
| Callers.SignedCallParams | src/caller/Caller.php:80-98 | the parameters signedCall() sends: the built-in ones merged with the caller's, converted, then api_sig; SignedCallSessionKey, SignedCallSignature and SignedCallLookup state their contents |
| Callers.CurlRequestFor | src/caller/CurlCaller.php:91-99 | POST sends the query as the body to the bare URL; any other method appends "?" and the query to the URL |
| Callers.FetchIgnoresParser | src/caller/CurlCaller.php:87-105 | the fetch does not involve the XML parser |
| Callers.Fetch | src/caller/CurlCaller.php:87-105 | one transfer on a miss: cURL's header lines and body, or the socket's request text and the header lines and body read back; CurlRequestFor, Http.RequestText's lemmas and FetchIgnoresParser state its parts |
| Callers.Interpret | src/caller/CurlCaller.php:125-139 | a parse failure is Malformed; status "ok" returns the first child; any other status throws the error text and its integer code |
| Callers.InterpretOkIff | src/caller/CurlCaller.php:129 | the call returns exactly when the status is exactly "ok" |
| Callers.StoreAfterFetch | src/caller/CurlCaller.php:108-121 | a response is stored under the Expires time; without one, for a positive time to live; otherwise nothing is stored |
| Callers.Serve | src/caller/CurlCaller.php:75-140 | one internalCall as a function of the state before it: a fresh cached entry is served without a transfer, otherwise the response is fetched, stored by StoreAfterFetch and interpreted; NoCacheAlwaysFetches, HitIgnoresTransport, ExpiresHeaderWins, UncacheableLeavesCache, StoreIgnoresEnvelope and RepeatWithinTtlIsServedFromCache state its behaviour |
| Callers.NoCacheAlwaysFetches | src/caller/CurlCaller.php:80-108 | without a cache every call fetches and nothing is stored |
| Callers.HitIgnoresTransport | src/caller/CurlCaller.php:80-85 | a hit uses neither transport: any transport and either kind of caller give the same outcome, and the cache and the headers are untouched |
| Callers.ExpiresHeaderWins | src/caller/CurlCaller.php:109-113 | on a miss with Expires, the entry expires at the header's time, whatever the policy says |
| Callers.UncacheableLeavesCache | src/caller/CurlCaller.php:115-120 | on a miss without Expires and with a non-positive time to live, the cache is unchanged |
| Callers.StoreIgnoresEnvelope | src/caller/CurlCaller.php:107-126 | what is stored does not depend on the parser: error responses are cached too |
| Callers.RepeatWithinTtlIsServedFromCache | src/caller/CurlCaller.php:79-85 | a response cached for the time to live is served from the cache, with the same result, by every repeat up to its expiration |
| Callers.ReadBody | src/caller/SocketCaller.php:106-109 | the body loop concatenates the lines up to the next blank line or the end |
| Callers.Caller.Curl | src/caller/CurlCaller.php:35-41 | the cURL caller starts without a cache |
| Callers.Caller.Socket | src/caller/SocketCaller.php:28-30 | the socket caller starts with a fresh, empty cache and a default policy |
| Callers.Caller.SetApiKey | src/caller/Caller.php:120-122 | the setter replaces the API key |
| Callers.Caller.GetApiKey | src/caller/Caller.php:129-131 | the getter returns the API key |
| Callers.Caller.SetApiSecret | src/caller/Caller.php:138-140 | the setter replaces the API secret |
| Callers.Caller.GetApiSecret | src/caller/Caller.php:147-149 | the getter returns the API secret |
| Callers.Caller.SetCache | src/caller/Caller.php:156-158 | the setter replaces the cache; null turns caching off |
| Callers.Caller.GetCache | src/caller/Caller.php:165-167 | the getter returns the cache |
| Callers.Caller.Header | src/caller/CurlCaller.php:150-160 | the header callback records the line and returns its length |
| Callers.Caller.ReadHeaders | src/caller/SocketCaller.php:98-103 | the header loop stops at the first blank line and leaves the header array of the lines before it |
| Callers.Caller.ReadResponse | src/caller/SocketCaller.php:98-109 | reading the socket gives the header array of the header lines and the body |
| Callers.Caller.ReceiveCurlHeaders | src/caller/CurlCaller.php:101-105 | the header array after cURL's callbacks is that of the header lines in order |
| Callers.Caller.FetchResponse | src/caller/CurlCaller.php:87-105 | the fetch yields Fetch's body and header array |
| Callers.Caller.StoreResponse | src/caller/CurlCaller.php:108-121 | the cache afterwards is StoreAfterFetch of the cache before |
| Callers.Caller.InternalCall | src/caller/CurlCaller.php:75-140 | the result, the header array and the cache entries are those Serve gives for the state before the call |
| Callers.Caller.Call | src/caller/Caller.php:55-68 | call() serves the parameters CallParams assembles |
| Callers.Caller.SignedCall | src/caller/Caller.php:80-102 | signedCall() serves the parameters SignedCallParams assembles and signs |
| Factory.GetterFor | src/caller/CallerFactory.php:57-59 | "getCurlCaller" selects the cURL caller and "getSocketCaller" the socket caller, in any letter case, as PHP looks methods up |
| Factory.DefaultKindIff | src/caller/CallerFactory.php:53-60 | the default class selects the cURL caller exactly for "CurlCaller" and the socket caller exactly for "SocketCaller", each in any letter case; every other name selects none |
| Factory.CaseVariantSelectsCurl | src/caller/CallerFactory.php:57-59 | a default set as "curlcaller" or "CURLCALLER" (which setDefaultCaller accepts) still selects the cURL caller |
| Factory.CallerFactory.constructor | src/caller/CallerFactory.php:15 | the default is "CurlCaller" and no caller exists yet |
| Factory.CallerFactory.GetCurlCaller | src/caller/CallerFactory.php:23-25 | the cURL singleton is created on first request and the same object is handed out afterwards |
| Factory.CallerFactory.GetSocketCaller | src/caller/CallerFactory.php:43-45 | the socket singleton is created with an empty cache on first request and the same object is handed out afterwards |
| Factory.CallerFactory.GetDefaultCaller | src/caller/CallerFactory.php:53-60 | the default caller is the singleton the default class names, in any letter case; nothing else changes |
| Factory.CallerFactory.SetDefaultCaller | src/caller/CallerFactory.php:67-74 | a class whose parent is Caller becomes the default; any other is refused with the exception message and the default is kept |
| Autoload.DirFor | src/lastfm.api.php:10-18 | a name holding "Cache" in any case goes to cache/; else one holding "Caller" goes to caller/; else to the loader's own directory |
| Autoload.ClassPath | src/lastfm.api.php:11-17 | the path starts with the loader's directory and ends with ".php" |
| Autoload.ClassPathInjective | src/lastfm.api.php:11-17 | two classes routed to one directory never share a path |
| Autoload.Load | src/lastfm.api.php:9-30 | a missing or irregular file throws "File '…' not found!"; a file that defines no such class throws "Class '…' not found!"; otherwise the file is loaded |
| Autoload.CacheWinsOverCaller | src/lastfm.api.php:10-13 | a name holding both words goes to cache/ |
| Autoload.MemoryCacheRouting | src/lastfm.api.php:10-11 | MemoryCache and MEMORYCACHE both go to cache/ |
| Autoload.CallerFactoryRouting | src/lastfm.api.php:13-14 | CallerFactory goes to caller/ |
| Autoload.AlbumRouting | src/lastfm.api.php:16-17 | Album is looked for next to the loader |

## Left out

- PeclCaller is left out: it depends on the pecl_http extension. For the same reason `getPeclCaller` is absent, and `Factory.CallerFactory.GetDefaultCaller` returns None when the default class is PeclCaller, or names any getter other than getCurlCaller and getSocketCaller in any letter case (where PHP would call an undefined method).
- DiskCache and SqliteCache are left out: they need the file system and SQLite. The socket caller starts with a `MemoryCache` instead of a DiskCache.
- The `CachePolicy` interface and the abstract `Cache` class are represented by their one modelled implementation each (`DefaultCachePolicy`, `MemoryCache`).
- Hashing (md5, sha1), strtotime, `mb_convert_encoding`, `http_build_query`, `parse_url`, SimpleXMLElement, `phpversion()`, `time()`, cURL and the socket are parameters (`Callers.Runtime`). The clock is read once per call.
- Transport failures are not modelled: no `false` from curl_exec, no failed fsockopen. A cURL caller with a cache stores a failed transfer's `false` for the policy's time to live, and parses it as the response (src/caller/CurlCaller.php:105-126); the model's transfer always yields a body, so it does not capture this. Nor are cURL's sticky options between calls.
- Floating-point arithmetic is exact real arithmetic. This covers MONTH, YEAR, the expiration `time() + $expiration`, and the divisions of getCurrentPage and getPages.
- PHP's numeric-string comparison in sort/ksort is not modelled: strings are ordered byte by byte. intval's exponent forms and integer overflow are also left out.
- Cache.HashPermutationInvariant: holds for the byte order modelled here, not for PHP's sort(). sort() compares numeric strings as numbers and other strings byte-wise, which is not transitive ("9" < "10" < "1975 Live" < "9"). So the values of {limit=10, page=9, album="1975 Live"} can sort, and hash, differently depending on the order they come in.
- Cache.HashDependsOnlyOnValues: the same limit. With PHP's sort() the key can depend on the order of the values when numeric and non-numeric strings are mixed.
- Params.HasValue: compares with string equality, not the loose `==` of PHP's `in_array` (src/cache/DefaultCachePolicy.php:75). This agrees with PHP on the calls modelled: after toUTF8 every parameter value is a string, and the needles "to" and "from" are not numeric, so loose comparison of two strings is plain equality there. A numeric needle such as "10" would also match "1e1" in PHP, which the model does not capture.
- `array_merge` renumbering integer keys is not modelled: parameter names are strings.
- Util::toFloat is left out (floating-point parsing).
- A null API key or secret is the empty string.
- Building a `Session` object from the node that getMobileSession, getSession and getWebSession return is left out: Session.php is not part of this model. The node is represented by its text.
- AuthSessions methods take the caller as a parameter. Obtaining it from `CallerFactory::getDefaultCaller()` is modelled separately, by `Factory.CallerFactory.GetDefaultCaller`.
- The autoloader's `require_once` is represented by the `definedAfterLoading` parameter: whether the class or interface exists once the file has been loaded.
- Callers.Serve: the response is modelled as a string of characters, and the header array as a map. The socket caller's line reading is modelled on a sequence of lines that fgets would return.
