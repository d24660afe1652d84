/** The conversions the library applies to the strings it reads out of
    responses and to the parameters it sends: to a string, an integer, a
    boolean, a timestamp, an image-size constant, and the UTF-8 conversion of
    a string or of a (nested) array of strings. */
module Util {
  import opened Wrappers
  import opened Php
  import Params
  import Media

  /** The guard `$var && trim($var)` shared by the conversions: the string
      is truthy and so is its trimmed form. */
  predicate Filled(s: string) {
    Truthy(s) && Truthy(Trim(s))
  }

  /** A string is filled exactly when it is not "0", does not trim to "0",
      and holds at least one character trim() does not strip. */
  lemma FilledIff(s: string)
    ensures Filled(s) <==>
      s != "0" && Trim(s) != "0" && exists i :: 0 <= i < |s| && !IsTrimmed(s[i])
  {
    TrimEmptyIff(s);
  }

  /** toString: the string itself, untrimmed, when filled; "" otherwise. */
  function ToString(s: string): (r: string)
    ensures r == "" || r == s
    ensures r == s <==> Filled(s) || s == ""
  {
    if Filled(s) then s else ""
  }

  /** toInteger: intval of the string when filled, 0 otherwise. */
  function ToInteger(s: string): (r: int)
    ensures Filled(s) ==> r == IntVal(s)
    ensures !Filled(s) ==> r == 0
  {
    if Filled(s) then IntVal(s) else 0
  }

  /** A string of trimmed characters holds no digit, so intval reads 0. */
  lemma {:induction false} IntValOfTrimmed(s: string)
    requires forall i :: 0 <= i < |s| ==> IsTrimmed(s[i])
    ensures IntVal(s) == 0
  {
    var t := SkipNumericSpace(s);
    if t != [] {
      assert t[0] == s[|s| - |t|];
    }
  }

  /** A "0" padded with trimmed characters reads as 0. */
  lemma IntValOfPaddedZero(s: string, a: nat)
    requires a < |s| && s[a] == '0'
    requires forall i :: 0 <= i < |s| && i != a ==> IsTrimmed(s[i])
    ensures IntVal(s) == 0
  {
    var t := SkipNumericSpace(s);
    var k := |s| - |t|;
    SkipNumericSpaceSkips(s);
    assert !IsNumericSpace(s[a]);
    assert k <= a;
    if k < a {
      assert t[0] == s[k];
    } else {
      assert t[0] == '0';
      if |t| > 1 {
        assert t[1] == s[a + 1];
      }
      assert DigitPrefix(t) == "0";
      assert DigitsValue("0") == 0 by { assert "0"[..0] == ""; }
    }
  }

  /** The guard of toInteger never changes its result: on every string
      toInteger agrees with a bare intval, because a string that is not
      filled reads as 0 anyway. */
  lemma ToIntegerIsIntVal(s: string)
    ensures ToInteger(s) == IntVal(s)
  {
    if !Filled(s) {
      var a := TrimShape(s);
      var r := Trim(s);
      if s == "0" {
        IntValOfPaddedZero(s, 0);
      } else if r == "" {
        TrimEmptyIff(s);
        IntValOfTrimmed(s);
      } else {
        assert r == "0" && s[a] == '0';
        IntValOfPaddedZero(s, a);
      }
    }
  }

  /** Everything SkipNumericSpace drops is numeric white space. */
  lemma {:induction false} SkipNumericSpaceSkips(s: string)
    ensures forall j :: 0 <= j < |s| - |SkipNumericSpace(s)| ==> IsNumericSpace(s[j])
  {
    if s != [] && IsNumericSpace(s[0]) {
      SkipNumericSpaceSkips(s[1..]);
    }
  }

  /** toBoolean: "true" and "false" by name, anything else by whether its
      intval is non-zero. */
  function ToBoolean(s: string): (r: bool)
    ensures s == "true" ==> r
    ensures s == "false" ==> !r
    ensures s != "true" && s != "false" ==> (r <==> IntVal(s) != 0)
  {
    var t := ToString(s);
    if t == "true" then true
    else if t == "false" then false
    else
      assert !Filled(s) ==> IntVal(s) == 0 by { ToIntegerIsIntVal(s); }
      IntVal(s) != 0
  }

  /** A word with one leading space trims back to the word. */
  lemma TrimOfPaddedWord(w: string)
    requires w != [] && !IsTrimmed(w[0]) && !IsTrimmed(w[|w| - 1])
    ensures Trim([' '] + w) == w
  {
    var s := [' '] + w;
    assert s[1..] == w;
    assert TrimLeft(s) == TrimLeft(w);
    TrimOfUntrimmedEnds(w);
  }

  /** A string that starts with neither white space, a sign nor a digit
      reads as 0. */
  lemma IntValOfNonNumeric(s: string)
    requires s != [] && !IsNumericSpace(s[0]) && !IsDigit(s[0]) && s[0] != '-' && s[0] != '+'
    ensures IntVal(s) == 0
  {
  }

  /** The names are matched untrimmed: " true" trims to "true" but is
      neither name, and its intval is 0, so it converts to false. */
  lemma UntrimmedTrueIsFalse()
    ensures Trim(" true") == "true"
    ensures !ToBoolean(" true")
  {
    TrimOfPaddedWord("true");
    assert " true" == [' '] + "true";
    IntValOfNonNumeric("true");
    assert SkipNumericSpace(" true") == "true";
  }

  /** The image-size names, indexed by their size constant. */
  const ImageNames: seq<string> := ["small", "medium", "large", "huge", "extralarge", "original"]

  /** A name that is neither "0" nor has a trimmed character at an end is
      filled, so toString leaves it alone. */
  lemma ToStringOfWord(s: string)
    requires s != [] && s != "0" && !IsTrimmed(s[0]) && !IsTrimmed(s[|s| - 1])
    ensures ToString(s) == s
  {
    TrimOfUntrimmedEnds(s);
  }

  /** The switch of toImageType over an already converted string. */
  function SizeOfName(t: string): (r: int)
    ensures Media.IMAGE_UNKNOWN <= r <= Media.IMAGE_ORIGINAL
    ensures r != Media.IMAGE_UNKNOWN ==> ImageNames[r] == t
    ensures r == Media.IMAGE_UNKNOWN ==> t !in ImageNames
  {
    if t == "small" then Media.IMAGE_SMALL
    else if t == "medium" then Media.IMAGE_MEDIUM
    else if t == "large" then Media.IMAGE_LARGE
    else if t == "huge" then Media.IMAGE_HUGE
    else if t == "extralarge" then Media.IMAGE_EXTRALARGE
    else if t == "original" then Media.IMAGE_ORIGINAL
    else Media.IMAGE_UNKNOWN
  }

  /** toImageType: the size constant a size name stands for, IMAGE_UNKNOWN
      for anything else. */
  function ToImageType(s: string): (r: int)
    ensures Media.IMAGE_UNKNOWN <= r <= Media.IMAGE_ORIGINAL
    ensures r != Media.IMAGE_UNKNOWN ==> ImageNames[r] == ToString(s)
    ensures r == Media.IMAGE_UNKNOWN ==> ToString(s) !in ImageNames
  {
    SizeOfName(ToString(s))
  }

  /** Stated on the input itself: a size name gives its own constant, any
      other string gives IMAGE_UNKNOWN. */
  lemma ToImageTypeOfName(s: string)
    ensures ToImageType(s) == Media.IMAGE_UNKNOWN <==> s !in ImageNames
    ensures ToImageType(s) != Media.IMAGE_UNKNOWN ==> ImageNames[ToImageType(s)] == s
  {
    if s in ImageNames {
      ToStringOfWord(s);
    }
  }

  /** Two names with the same known size are the same name. */
  lemma ToImageTypeInjective(a: string, b: string)
    requires ToImageType(a) == ToImageType(b) != Media.IMAGE_UNKNOWN
    ensures a == b
  {
  }

  /** toTimestamp: 0 for a string that is not filled, strtotime of the
      string otherwise (None standing for strtotime's false). */
  function ToTimestamp(s: string, strtotime: string -> Option<int>): (r: Option<int>)
    ensures !Filled(s) ==> r == Some(0)
    ensures Filled(s) ==> r == strtotime(s)
  {
    if Filled(s) then strtotime(s) else Some(0)
  }

  /** A PHP value as toUTF8 sees it: a string, or an array of named values. */
  datatype PhpValue = Str(s: string) | Arr(entries: seq<(string, PhpValue)>)

  /** Two values have the same structure: the same array keys in the same
      order at every level, strings where strings are. */
  predicate SameShape(a: PhpValue, b: PhpValue)
    decreases a
  {
    match a
    case Str(_) => b.Str?
    case Arr(es) =>
      b.Arr? && |b.entries| == |es| &&
      forall i :: 0 <= i < |es| ==>
        b.entries[i].0 == es[i].0 && SameShape(es[i].1, b.entries[i].1)
  }

  /** toUTF8: the converter applied to a string, and element by element,
      recursively, to an array. */
  function ToUTF8(v: PhpValue, conv: string -> string): (r: PhpValue)
    ensures v.Str? ==> r == Str(conv(v.s))
    ensures v.Arr? ==> r.Arr? && |r.entries| == |v.entries|
    decreases v
  {
    match v
    case Str(s) => Str(conv(s))
    case Arr(es) =>
      Arr(seq(|es|, i requires 0 <= i < |es| => (es[i].0, ToUTF8(es[i].1, conv))))
  }

  /** `b` is `a` with the converter applied to every leaf: a string becomes
      its conversion, an array keeps its keys in order and each of its
      values is converted in turn. */
  predicate Converted(a: PhpValue, b: PhpValue, conv: string -> string)
    decreases a
  {
    match a
    case Str(s) => b == Str(conv(s))
    case Arr(es) =>
      b.Arr? && |b.entries| == |es| &&
      forall i :: 0 <= i < |es| ==>
        b.entries[i].0 == es[i].0 && Converted(es[i].1, b.entries[i].1, conv)
  }

  /** toUTF8 reaches every leaf: at every level of nesting each string is
      converted and each key kept in its place. */
  lemma {:induction false} ToUTF8Converts(v: PhpValue, conv: string -> string)
    ensures Converted(v, ToUTF8(v, conv), conv)
    decreases v
  {
    if v.Arr? {
      var r := ToUTF8(v, conv);
      forall i | 0 <= i < |v.entries|
        ensures r.entries[i].0 == v.entries[i].0 && Converted(v.entries[i].1, r.entries[i].1, conv)
      {
        ToUTF8Converts(v.entries[i].1, conv);
      }
    }
  }

  /** Converted pins its result: a value has only one conversion, so
      ToUTF8Converts determines toUTF8 completely. */
  lemma {:induction false} ConvertedUnique(a: PhpValue, b: PhpValue, c: PhpValue, conv: string -> string)
    requires Converted(a, b, conv) && Converted(a, c, conv)
    ensures b == c
    decreases a
  {
    if a.Arr? {
      forall i | 0 <= i < |a.entries|
        ensures b.entries[i] == c.entries[i]
      {
        ConvertedUnique(a.entries[i].1, b.entries[i].1, c.entries[i].1, conv);
      }
      assert b.entries == c.entries;
    }
  }

  /** toUTF8 keeps every key, in order, at every level. */
  lemma {:induction false} ToUTF8KeepsShape(v: PhpValue, conv: string -> string)
    ensures SameShape(v, ToUTF8(v, conv))
    decreases v
  {
    if v.Arr? {
      var r := ToUTF8(v, conv);
      forall i | 0 <= i < |v.entries|
        ensures r.entries[i].0 == v.entries[i].0 && SameShape(v.entries[i].1, r.entries[i].1)
      {
        ToUTF8KeepsShape(v.entries[i].1, conv);
      }
    }
  }

  /** With a converter that changes nothing, toUTF8 changes nothing. */
  lemma {:induction false} ToUTF8Identity(v: PhpValue, conv: string -> string)
    requires forall s :: conv(s) == s
    ensures ToUTF8(v, conv) == v
    decreases v
  {
    if v.Arr? {
      var r := ToUTF8(v, conv);
      forall i | 0 <= i < |v.entries|
        ensures r.entries[i] == v.entries[i]
      {
        ToUTF8Identity(v.entries[i].1, conv);
      }
    }
  }

  /** A parameter array, a flat array of strings, as a PHP value. */
  function AsValue(p: Params.Params): (v: PhpValue)
    ensures v.Arr? && |v.entries| == |p|
    ensures forall i :: 0 <= i < |p| ==> v.entries[i] == (p[i].0, Str(p[i].1))
  {
    Arr(seq(|p|, i requires 0 <= i < |p| => (p[i].0, Str(p[i].1))))
  }

  /** On a parameter array toUTF8 converts every value and keeps every
      name: it is Params.ConvertValues. */
  lemma ToUTF8OfParams(p: Params.Params, conv: string -> string)
    ensures ToUTF8(AsValue(p), conv) == AsValue(Params.ConvertValues(p, conv))
  {
    var a, b := ToUTF8(AsValue(p), conv), AsValue(Params.ConvertValues(p, conv));
    assert a.entries == b.entries;
  }
}
