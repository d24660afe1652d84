/** The response cache: the key derived from the request parameters, and the
    in-memory store of responses with their expiration times. */
module Cache {
  import opened Wrappers
  import opened Php
  import opened Order
  import opened Params
  import CachePolicy

  function Identity(s: string): string {
    s
  }

  /** Each value preceded by its position, in the order given. */
  function IndexedConcat(vs: seq<string>): (r: string)
    ensures |vs| == 0 ==> r == ""
  {
    if vs == [] then ""
    else IndexedConcat(vs[..|vs| - 1]) + NatToString(|vs| - 1) + vs[|vs| - 1]
  }

  /** What createHash hashes. sort() orders the VALUES and renumbers them
      0, 1, ...: the parameter names do not take part. */
  function HashPreImage(params: Params): string {
    IndexedConcat(SortBy(Values(params), Identity))
  }

  /** createHash: sort, then one pass appending position and value, then
      sha1. */
  method CreateHash(params: Params, sha1: string -> string) returns (hash: string)
    ensures hash == sha1(HashPreImage(params))
  {
    var sorted := SortBy(Values(params), Identity);
    var s := "";
    for i := 0 to |sorted|
      invariant s == IndexedConcat(sorted[..i])
    {
      assert sorted[..i + 1][..i] == sorted[..i];
      s := s + NatToString(i) + sorted[i];
    }
    assert sorted[..|sorted|] == sorted;
    hash := sha1(s);
  }

  lemma IdentityDetermines(s: seq<string>)
    ensures KeyDetermines(s, Identity)
  {
  }

  /** The key depends only on the multiset of values. */
  lemma HashDependsOnlyOnValues(p: Params, q: Params, sha1: string -> string)
    requires multiset(Values(p)) == multiset(Values(q))
    ensures sha1(HashPreImage(p)) == sha1(HashPreImage(q))
  {
    IdentityDetermines(Values(p));
    SortByDependsOnlyOnElements(Values(p), Values(q), Identity);
  }

  lemma ValuesAppend(a: Params, b: Params)
    ensures Values(a + b) == Values(a) + Values(b)
  {
  }

  /** Rearranging the entries rearranges their values. */
  lemma {:induction false} ValuesOfPermutation(p: Params, q: Params)
    requires multiset(p) == multiset(q)
    ensures multiset(Values(p)) == multiset(Values(q))
    decreases |p|
  {
    if p == [] {
      assert |q| == |multiset(q)| == 0;
    } else {
      var x := p[0];
      assert x in multiset(q);
      var k :| 0 <= k < |q| && q[k] == x;
      var q' := q[..k] + q[k + 1..];
      assert q == q[..k] + [x] + q[k + 1..];
      assert p == [x] + p[1..];
      assert multiset(q) == multiset(q[..k]) + multiset{x} + multiset(q[k + 1..]);
      assert multiset(q') == multiset(q[..k]) + multiset(q[k + 1..]);
      assert multiset(p) == multiset{x} + multiset(p[1..]);
      assert multiset(p[1..]) == multiset(p) - multiset{x};
      assert multiset(q') == multiset(q) - multiset{x};
      ValuesOfPermutation(p[1..], q');
      ValuesAppend(q[..k] + [x], q[k + 1..]);
      ValuesAppend(q[..k], [x]);
      ValuesAppend(q[..k], q[k + 1..]);
      ValuesAppend([x], p[1..]);
    }
  }

  /** The key does not depend on the order of the parameters. */
  lemma HashPermutationInvariant(p: Params, q: Params, sha1: string -> string)
    requires multiset(p) == multiset(q)
    ensures sha1(HashPreImage(p)) == sha1(HashPreImage(q))
  {
    ValuesOfPermutation(p, q);
    HashDependsOnlyOnValues(p, q, sha1);
  }

  /** Because the names do not take part, two different requests whose
      values are swapped between two parameters share a key: album.getInfo
      for the album "Bar" by "Foo" and for the album "Foo" by "Bar". */
  lemma SwappedValuesCollide(m: string, n1: string, n2: string, a: string, b: string, sha1: string -> string)
    requires a != b
    ensures
      var p: Params := [("method", m), (n1, a), (n2, b)];
      var q: Params := [("method", m), (n1, b), (n2, a)];
      p != q && sha1(HashPreImage(p)) == sha1(HashPreImage(q))
  {
    var p: Params := [("method", m), (n1, a), (n2, b)];
    var q: Params := [("method", m), (n1, b), (n2, a)];
    assert p[1] != q[1];
    assert Values(p) == [m, a, b];
    assert Values(q) == [m, b, a];
    assert multiset(Values(p)) == multiset(Values(q));
    HashDependsOnlyOnValues(p, q, sha1);
  }

  // ---------------------------------------------------------------------------
  // The in-memory store

  /** A cached response and the time it expires at (seconds since the
      epoch; a real because a policy time-to-live may be fractional). */
  datatype Entry = Entry(data: string, expiration: real)

  /** `$this->cache[$hash]['data']`, null for an absent hash. */
  function LoadFrom(entries: map<string, Entry>, hash: string): (r: Option<string>)
    ensures r.Some? <==> hash in entries
    ensures r.Some? ==> r.value == entries[hash].data
  {
    if hash in entries then Some(entries[hash].data) else None
  }

  /** isExpired: the clock is past the expiration cut to an integer. An
      absent entry's expiration reads as null, that is 0. As the clock is a
      whole number of seconds, an entry with a non-negative expiration is
      expired exactly when the clock has passed that expiration. */
  predicate ExpiredIn(entries: map<string, Entry>, hash: string, now: int)
    ensures hash in entries && 0.0 <= entries[hash].expiration ==>
      (ExpiredIn(entries, hash, now) <==> now as real > entries[hash].expiration)
    ensures hash !in entries ==> (ExpiredIn(entries, hash, now) <==> now > 0)
  {
    now > if hash in entries then Trunc(entries[hash].expiration) else 0
  }

  /** An entry is still fresh at the second of its (whole) expiration time
      and expired from the next second on. */
  lemma ExpiryBoundary(entries: map<string, Entry>, hash: string, n: int)
    requires hash in entries && entries[hash].expiration == n as real
    ensures !ExpiredIn(entries, hash, n) && ExpiredIn(entries, hash, n + 1)
  {
  }

  /** A fractional expiration is cut down: an entry that expires at n + f,
      0 <= f < 1, is already expired at n + 1. */
  lemma FractionalExpiryCutDown(entries: map<string, Entry>, hash: string, n: nat, f: real)
    requires 0.0 <= f < 1.0
    requires hash in entries && entries[hash].expiration == n as real + f
    ensures !ExpiredIn(entries, hash, n) && ExpiredIn(entries, hash, n + 1)
  {
  }

  /** An absent hash counts as expired at every positive time. */
  lemma AbsentIsExpired(entries: map<string, Entry>, hash: string, now: int)
    requires hash !in entries
    ensures ExpiredIn(entries, hash, now) <==> now > 0
  {
  }

  class MemoryCache {
    var policy: CachePolicy.DefaultCachePolicy
    var entries: map<string, Entry>

    /** A new cache is empty and has a fresh default policy. */
    constructor ()
      ensures fresh(policy) && policy.weeklyChartsExpiration == CachePolicy.WEEK
      ensures entries == map[]
    {
      policy := new CachePolicy.DefaultCachePolicy();
      entries := map[];
    }

    function GetPolicy(): (p: CachePolicy.DefaultCachePolicy)
      reads this
      ensures p == policy
    {
      policy
    }

    method SetPolicy(p: CachePolicy.DefaultCachePolicy)
      modifies this`policy
      ensures policy == p
    {
      policy := p;
    }

    /** contains: the hash has an entry, so load finds data for it. */
    predicate Contains(hash: string)
      reads this
      ensures Contains(hash) <==> Load(hash).Some?
    {
      hash in entries
    }

    function Load(hash: string): (r: Option<string>)
      reads this
      ensures r == LoadFrom(entries, hash)
    {
      LoadFrom(entries, hash)
    }

    /** isExpired: an entry with a non-negative expiration is expired once
        the clock has passed it; an absent hash at every positive time. */
    predicate IsExpired(hash: string, now: int)
      reads this
      ensures Contains(hash) && 0.0 <= entries[hash].expiration ==>
        (IsExpired(hash, now) <==> now as real > entries[hash].expiration)
      ensures !Contains(hash) ==> (IsExpired(hash, now) <==> now > 0)
    {
      ExpiredIn(entries, hash, now)
    }

    /** store: the entry for `hash` is replaced, every other entry kept. */
    method Store(hash: string, data: string, expiration: real)
      modifies this`entries
      ensures entries == old(entries)[hash := Entry(data, expiration)]
      ensures Contains(hash) && Load(hash) == Some(data)
      ensures forall h :: h != hash ==> Load(h) == old(Load(h))
    {
      entries := entries[hash := Entry(data, expiration)];
    }

    /** remove: the entry for `hash` is gone, every other entry kept; a
      second remove changes nothing. */
    method Remove(hash: string)
      modifies this`entries
      ensures entries == old(entries) - {hash}
      ensures !Contains(hash)
      ensures forall h :: h != hash ==> Load(h) == old(Load(h))
      ensures old(!Contains(hash)) ==> entries == old(entries)
    {
      entries := entries - {hash};
    }

    /** clear: no hash is contained any more. */
    method Clear()
      modifies this`entries
      ensures entries == map[]
      ensures forall h :: !Contains(h)
    {
      entries := map[];
    }
  }
}
