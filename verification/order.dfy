/** The ordering PHP's sort() and ksort() put strings in, taken as byte
    (code point) lexicographic order, and an insertion sort that stands for
    both built-ins. The one fact the rest of the model needs from them is that
    the sorted result depends only on the multiset of elements sorted, not on
    the order in which they were inserted. */
module Order {

  /** `a` sorts before or equal to `b`. */
  predicate LexLeq(a: string, b: string) {
    |a| == 0 || (|b| > 0 && (a[0] < b[0] || (a[0] == b[0] && LexLeq(a[1..], b[1..]))))
  }

  lemma {:induction false} LexLeqReflexive(a: string)
    ensures LexLeq(a, a)
  {
    if |a| > 0 {
      LexLeqReflexive(a[1..]);
    }
  }

  lemma {:induction false} LexLeqAntisymmetric(a: string, b: string)
    requires LexLeq(a, b) && LexLeq(b, a)
    ensures a == b
  {
    if |a| > 0 && |b| > 0 {
      LexLeqAntisymmetric(a[1..], b[1..]);
      assert a == [a[0]] + a[1..] && b == [b[0]] + b[1..];
    }
  }

  lemma {:induction false} LexLeqTransitive(a: string, b: string, c: string)
    requires LexLeq(a, b) && LexLeq(b, c)
    ensures LexLeq(a, c)
  {
    if |a| > 0 && |b| > 0 && |c| > 0 && a[0] == b[0] == c[0] {
      LexLeqTransitive(a[1..], b[1..], c[1..]);
    }
  }

  lemma {:induction false} LexLeqTotal(a: string, b: string)
    ensures LexLeq(a, b) || LexLeq(b, a)
  {
    if |a| > 0 && |b| > 0 && a[0] == b[0] {
      LexLeqTotal(a[1..], b[1..]);
    }
  }

  /** `s` is in ascending order of `key`. */
  ghost predicate SortedBy<T>(s: seq<T>, key: T -> string) {
    forall i, j :: 0 <= i < j < |s| ==> LexLeq(key(s[i]), key(s[j]))
  }

  /** No two distinct elements of `s` share a key. */
  ghost predicate KeyDetermines<T>(s: seq<T>, key: T -> string) {
    forall x, y :: x in s && y in s && key(x) == key(y) ==> x == y
  }

  function Insert<T>(x: T, s: seq<T>, key: T -> string): (r: seq<T>)
    ensures multiset(r) == multiset(s) + multiset{x}
  {
    if s == [] then [x]
    else if LexLeq(key(x), key(s[0])) then [x] + s
    else
      assert s == [s[0]] + s[1..];
      [s[0]] + Insert(x, s[1..], key)
  }

  /** sort()/ksort(): `s` in ascending order of `key`. */
  function SortBy<T>(s: seq<T>, key: T -> string): (r: seq<T>)
    ensures multiset(r) == multiset(s)
  {
    if s == [] then []
    else
      assert s == [s[0]] + s[1..];
      Insert(s[0], SortBy(s[1..], key), key)
  }

  lemma {:induction false} InsertSorted<T>(x: T, s: seq<T>, key: T -> string)
    requires SortedBy(s, key)
    ensures SortedBy(Insert(x, s, key), key)
  {
    if s == [] {
    } else if LexLeq(key(x), key(s[0])) {
      forall j | 0 < j < |s|
        ensures LexLeq(key(x), key(s[j]))
      {
        LexLeqTransitive(key(x), key(s[0]), key(s[j]));
      }
    } else {
      LexLeqTotal(key(x), key(s[0]));
      InsertSorted(x, s[1..], key);
      var r := Insert(x, s, key);
      var t := Insert(x, s[1..], key);
      assert r == [s[0]] + t;
      forall j | 0 < j < |r|
        ensures LexLeq(key(s[0]), key(r[j]))
      {
        var y := r[j];
        assert y in multiset(t);
        assert y == x || y in multiset(s[1..]);
        if y != x {
          var k :| 0 <= k < |s[1..]| && s[1..][k] == y;
          assert s[k + 1] == y;
        }
      }
    }
  }

  lemma {:induction false} SortBySorted<T>(s: seq<T>, key: T -> string)
    ensures SortedBy(SortBy(s, key), key)
  {
    if s != [] {
      SortBySorted(s[1..], key);
      InsertSorted(s[0], SortBy(s[1..], key), key);
    }
  }

  /** The first element of a sorted sequence sorts before every element of it. */
  lemma HeadIsLeast<T>(s: seq<T>, key: T -> string, x: T)
    requires SortedBy(s, key) && x in s
    ensures LexLeq(key(s[0]), key(x))
  {
    var i :| 0 <= i < |s| && s[i] == x;
    if i == 0 { LexLeqReflexive(key(x)); }
  }

  lemma TailsAgree<T>(s: seq<T>, t: seq<T>)
    requires s != [] && t != [] && s[0] == t[0]
    requires multiset(s) == multiset(t)
    ensures multiset(s[1..]) == multiset(t[1..])
  {
    assert s == [s[0]] + s[1..] && t == [t[0]] + t[1..];
    assert multiset(s[1..]) == multiset(s) - multiset{s[0]};
    assert multiset(t[1..]) == multiset(t) - multiset{t[0]};
  }

  /** Two sequences sorted by the same key and holding the same elements are
      equal, as long as no two distinct elements share a key. */
  lemma {:induction false} SortedUnique<T>(s: seq<T>, t: seq<T>, key: T -> string)
    requires SortedBy(s, key) && SortedBy(t, key)
    requires multiset(s) == multiset(t)
    requires KeyDetermines(s, key)
    ensures s == t
  {
    assert |t| == |multiset(t)| == |multiset(s)| == |s|;
    if s != [] {
      assert t[0] in multiset(s) && s[0] in multiset(t);
      HeadIsLeast(s, key, t[0]);
      HeadIsLeast(t, key, s[0]);
      LexLeqAntisymmetric(key(s[0]), key(t[0]));
      TailsAgree(s, t);
      assert forall x :: x in s[1..] ==> x in s;
      SortedUnique(s[1..], t[1..], key);
      assert s == [s[0]] + s[1..] && t == [t[0]] + t[1..];
    }
  }

  /** The sorted result depends only on the multiset of elements. */
  lemma SortByDependsOnlyOnElements<T>(s: seq<T>, t: seq<T>, key: T -> string)
    requires multiset(s) == multiset(t)
    requires KeyDetermines(s, key)
    ensures SortBy(s, key) == SortBy(t, key)
  {
    var a, b := SortBy(s, key), SortBy(t, key);
    SortBySorted(s, key);
    SortBySorted(t, key);
    forall x, y | x in a && y in a && key(x) == key(y)
      ensures x == y
    {
      assert x in multiset(s) && y in multiset(s);
    }
    SortedUnique(a, b, key);
  }
}
