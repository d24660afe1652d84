/** Request signing and the authentication token of a mobile session. The
    signature is md5 of every (name, value) pair in ascending name order,
    written name then value with nothing between them, followed by the API
    secret. md5 is a parameter of the model. */
module Auth {
  import opened Order
  import opened Params

  function KeyOf(e: (string, string)): string {
    e.0
  }

  /** Every name followed by its value, in the order given, with no
      separator anywhere. */
  function PairsConcat(ps: Params): (r: string)
    ensures |ps| == 0 ==> r == ""
  {
    if ps == [] then ""
    else PairsConcat(ps[..|ps| - 1]) + ps[|ps| - 1].0 + ps[|ps| - 1].1
  }

  /** What getApiSignature hashes: the pairs sorted by name (ksort), then
      the secret. The secret is always the suffix. */
  function SignaturePreImage(params: Params, apiSecret: string): (r: string)
    ensures |apiSecret| <= |r| && r[|r| - |apiSecret|..] == apiSecret
  {
    PairsConcat(SortBy(params, KeyOf)) + apiSecret
  }

  /** getApiSignature: ksort, then one pass appending name and value, then
      the secret, then md5. */
  method GetApiSignature(params: Params, apiSecret: string, md5: string -> string)
    returns (sig: string)
    ensures sig == md5(SignaturePreImage(params, apiSecret))
  {
    var sorted := SortBy(params, KeyOf);
    var s := "";
    for i := 0 to |sorted|
      invariant s == PairsConcat(sorted[..i])
    {
      assert sorted[..i + 1][..i] == sorted[..i];
      s := s + sorted[i].0 + sorted[i].1;
    }
    assert sorted[..|sorted|] == sorted;
    s := s + apiSecret;
    sig := md5(s);
  }

  /** In an array with unique names, an entry is fixed by its name. */
  lemma UniqueKeysDetermine(p: Params, q: Params)
    requires UniqueKeys(p) && multiset(p) == multiset(q)
    ensures KeyDetermines(q, KeyOf)
  {
    forall x, y | x in q && y in q && KeyOf(x) == KeyOf(y)
      ensures x == y
    {
      assert x in multiset(p) && y in multiset(p);
      var i :| 0 <= i < |p| && p[i] == x;
      var j :| 0 <= j < |p| && p[j] == y;
      assert i == j;
    }
  }

  /** The pre-image is the concatenation of ANY arrangement of the entries in
      ascending name order, followed by the secret: the order in which the
      entries were inserted does not matter. */
  lemma PreImageOfSortedArrangement(params: Params, s: Params, apiSecret: string)
    requires UniqueKeys(params)
    requires multiset(s) == multiset(params) && SortedBy(s, KeyOf)
    ensures SignaturePreImage(params, apiSecret) == PairsConcat(s) + apiSecret
  {
    var t := SortBy(params, KeyOf);
    SortBySorted(params, KeyOf);
    UniqueKeysDetermine(params, t);
    SortedUnique(t, s, KeyOf);
  }

  /** Two parameter arrays holding the same entries, in any order, have the
      same signature. */
  lemma SignatureOrderIndependent(p: Params, q: Params, apiSecret: string, md5: string -> string)
    requires UniqueKeys(p) && multiset(p) == multiset(q)
    ensures md5(SignaturePreImage(p, apiSecret)) == md5(SignaturePreImage(q, apiSecret))
  {
    UniqueKeysDetermine(p, p);
    SortByDependsOnlyOnElements(p, q, KeyOf);
  }

  /** Without a separator, {a: "bc"} and {ab: "c"} hash the same text and so
      get the same signature. */
  lemma NoSeparatorCollision(apiSecret: string, md5: string -> string)
    ensures SignaturePreImage([("a", "bc")], apiSecret) == SignaturePreImage([("ab", "c")], apiSecret)
    ensures md5(SignaturePreImage([("a", "bc")], apiSecret)) == md5(SignaturePreImage([("ab", "c")], apiSecret))
  {
    var p: Params := [("a", "bc")];
    var q: Params := [("ab", "c")];
    assert SortBy(p, KeyOf) == p;
    assert SortBy(q, KeyOf) == q;
    assert PairsConcat(p) == "abc" by { assert p[..0] == []; }
    assert PairsConcat(q) == "abc" by { assert q[..0] == []; }
  }

  /** getMobileSession's authToken: md5 of the user name followed by the
      md5 of the password, or by the password itself when it is passed
      already hashed. */
  function AuthToken(username: string, password: string, applyMd5: bool, md5: string -> string): (t: string)
    ensures !applyMd5 ==> t == md5(username + password)
  {
    md5(username + if applyMd5 then md5(password) else password)
  }

  /** Hashing the password here, or passing it hashed with apply_md5 off,
      gives the same token. */
  lemma AuthTokenOfHashedPassword(username: string, password: string, md5: string -> string)
    ensures AuthToken(username, password, true, md5) == AuthToken(username, md5(password), false, md5)
  {
  }
}
