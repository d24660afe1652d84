/** Request parameters: a PHP array from parameter names to string values,
    which keeps its entries in insertion order. Here it is a sequence of
    (name, value) pairs; the operations the callers perform on it are the
    element assignment `$p[$name] = $value`, `array_merge` and `in_array`. */
module Params {
  import opened Wrappers

  type Params = seq<(string, string)>

  /** The names in order, what `array_keys` returns. */
  function Keys(p: Params): (r: seq<string>)
    ensures |r| == |p| && forall i :: 0 <= i < |p| ==> r[i] == p[i].0
  {
    if p == [] then [] else [p[0].0] + Keys(p[1..])
  }

  /** The values in order, what `array_values` returns. */
  function Values(p: Params): (r: seq<string>)
    ensures |r| == |p| && forall i :: 0 <= i < |p| ==> r[i] == p[i].1
  {
    if p == [] then [] else [p[0].1] + Values(p[1..])
  }

  /** A PHP array never holds a name twice. */
  ghost predicate UniqueKeys(p: Params) {
    forall i, j :: 0 <= i < j < |p| ==> p[i].0 != p[j].0
  }

  /** `$p[$name]`, None where the name is absent (PHP gives null). */
  function Lookup(p: Params, name: string): (r: Option<string>)
    ensures r.Some? <==> name in Keys(p)
    ensures r.Some? ==> (name, r.value) in p
  {
    if p == [] then None
    else if p[0].0 == name then Some(p[0].1)
    else Lookup(p[1..], name)
  }

  /** `$p[$name] = $value`: an existing entry is overwritten where it stands,
      a new one is appended. */
  function Set(p: Params, name: string, value: string): Params {
    if p == [] then [(name, value)]
    else if p[0].0 == name then [(name, value)] + p[1..]
    else [p[0]] + Set(p[1..], name, value)
  }

  /** The names after the assignment: the old ones, with the new name
      appended when it was absent. */
  lemma {:induction false} SetKeys(p: Params, name: string, value: string)
    ensures Keys(Set(p, name, value)) == if name in Keys(p) then Keys(p) else Keys(p) + [name]
  {
    if p != [] {
      var r := Set(p, name, value);
      assert Keys(p) == [p[0].0] + Keys(p[1..]);
      if p[0].0 == name {
        assert r[1..] == p[1..];
        assert Keys(r) == [name] + Keys(p[1..]);
      } else {
        SetKeys(p[1..], name, value);
        assert r[1..] == Set(p[1..], name, value);
        assert Keys(r) == [p[0].0] + Keys(r[1..]);
      }
    }
  }

  /** After the assignment the name maps to the value and every other name
      keeps its value. */
  lemma {:induction false} SetLookup(p: Params, name: string, value: string, k: string)
    ensures Lookup(Set(p, name, value), k) == if k == name then Some(value) else Lookup(p, k)
  {
    if p != [] && p[0].0 != name {
      SetLookup(p[1..], name, value, k);
      assert Set(p, name, value)[1..] == Set(p[1..], name, value);
    }
  }

  lemma {:induction false} SetKeepsUniqueKeys(p: Params, name: string, value: string)
    requires UniqueKeys(p)
    ensures UniqueKeys(Set(p, name, value))
  {
    var r := Set(p, name, value);
    SetKeys(p, name, value);
    var kp, kr := Keys(p), Keys(r);
    forall i, j | 0 <= i < j < |r|
      ensures r[i].0 != r[j].0
    {
      assert kr[i] == r[i].0 && kr[j] == r[j].0;
      if name !in kp && j == |p| {
        assert kr[i] == kp[i];
      } else {
        assert kr[i] == kp[i] && kr[j] == kp[j];
      }
    }
  }

  /** Setting a new name appends it. */
  lemma {:induction false} SetAppends(p: Params, name: string, value: string)
    requires name !in Keys(p)
    ensures Set(p, name, value) == p + [(name, value)]
  {
    if p != [] {
      assert Keys(p) == [p[0].0] + Keys(p[1..]);
      SetAppends(p[1..], name, value);
      assert p == [p[0]] + p[1..];
    }
  }

  /** `array_merge($a, $b)` for arrays with string keys: each entry of `b`,
      in order, overwrites the entry of the same name or is appended. */
  function Merge(a: Params, b: Params): Params
    decreases b
  {
    if b == [] then a else Merge(Set(a, b[0].0, b[0].1), b[1..])
  }

  /** `x` is a prefix of `y`. */
  predicate IsPrefix(x: seq<string>, y: seq<string>) {
    |x| <= |y| && y[..|x|] == x
  }

  lemma PrefixTransitive(x: seq<string>, y: seq<string>, z: seq<string>)
    requires IsPrefix(x, y) && IsPrefix(y, z)
    ensures IsPrefix(x, z)
  {
    assert z[..|x|] == z[..|y|][..|x|];
  }

  /** The names of `a` keep their places at the front of
      `array_merge($a, $b)`. */
  lemma {:induction false} MergeKeepsLeadingKeys(a: Params, b: Params)
    ensures IsPrefix(Keys(a), Keys(Merge(a, b)))
    decreases b
  {
    if b != [] {
      var a' := Set(a, b[0].0, b[0].1);
      SetKeys(a, b[0].0, b[0].1);
      var ka, ka' := Keys(a), Keys(a');
      assert IsPrefix(ka, ka') by {
        if b[0].0 !in ka {
          assert ka' == ka + [b[0].0];
          assert ka'[..|ka|] == ka;
        }
      }
      MergeKeepsLeadingKeys(a', b[1..]);
      PrefixTransitive(ka, ka', Keys(Merge(a', b[1..])));
    }
  }

  /** After `array_merge($a, $b)` a name maps to its value in `b` when `b`
      has it, and to its value in `a` otherwise. */
  lemma {:induction false} MergeLookup(a: Params, b: Params, name: string)
    requires UniqueKeys(b)
    ensures Lookup(Merge(a, b), name) == if name in Keys(b) then Lookup(b, name) else Lookup(a, name)
    decreases b
  {
    if b != [] {
      var rest := b[1..];
      assert UniqueKeys(rest);
      assert Keys(b) == [b[0].0] + Keys(rest);
      assert b[0].0 !in Keys(rest);
      SetLookup(a, b[0].0, b[0].1, name);
      MergeLookup(Set(a, b[0].0, b[0].1), rest, name);
    }
  }

  /** The names of `array_merge($a, $b)` are those of `a` followed by those
      of `b` that `a` lacks. */
  lemma {:induction false} MergeKeys(a: Params, b: Params, name: string)
    ensures name in Keys(Merge(a, b)) <==> name in Keys(a) || name in Keys(b)
    decreases b
  {
    if b != [] {
      SetKeys(a, b[0].0, b[0].1);
      MergeKeys(Set(a, b[0].0, b[0].1), b[1..], name);
      assert Keys(b) == [b[0].0] + Keys(b[1..]);
    }
  }

  lemma {:induction false} MergeKeepsUniqueKeys(a: Params, b: Params)
    requires UniqueKeys(a)
    ensures UniqueKeys(Merge(a, b))
    decreases b
  {
    if b != [] {
      SetKeepsUniqueKeys(a, b[0].0, b[0].1);
      MergeKeepsUniqueKeys(Set(a, b[0].0, b[0].1), b[1..]);
    }
  }

  /** `in_array($value, $p)`: whether some entry has that value. For the
      non-numeric needles the library searches for, PHP's loose comparison of
      two strings is plain string equality. */
  predicate HasValue(p: Params, value: string) {
    value in Values(p)
  }

  /** Every value passed through `conv`, names and order kept. */
  function ConvertValues(p: Params, conv: string -> string): (r: Params)
    ensures |r| == |p| && forall i :: 0 <= i < |p| ==> r[i].0 == p[i].0 && r[i].1 == conv(p[i].1)
    ensures Keys(r) == Keys(p)
    ensures forall k :: Lookup(r, k) == if k in Keys(p) then Some(conv(Lookup(p, k).value)) else None
  {
    if p == [] then []
    else
      var r := [(p[0].0, conv(p[0].1))] + ConvertValues(p[1..], conv);
      assert Keys(r) == [p[0].0] + Keys(ConvertValues(p[1..], conv));
      assert Keys(p) == [p[0].0] + Keys(p[1..]);
      r
  }
}
