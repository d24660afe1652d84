/** The PHP built-ins the library leans on, over strings of characters:
    trim, the truthiness of a string, intval, strval of an integer, stripos,
    explode's search for a separator, round and the float-to-integer cast.
    Strings are `seq<char>`; the library only feeds them ASCII where the
    distinction between characters and bytes would matter. */
module Php {
  import opened Wrappers

  // ---------------------------------------------------------------------------
  // Truthiness and trim

  /** A string is falsy in PHP exactly when it is "" or "0". */
  predicate Truthy(s: string) {
    s != "" && s != "0"
  }

  /** The characters trim() strips when no character list is given:
      space, tab, line feed, carriage return, NUL and vertical tab. */
  predicate IsTrimmed(c: char) {
    c == ' ' || c == '\t' || c == '\n' || c == '\r' || c == '\0' || c == 11 as char
  }

  function TrimLeft(s: string): (r: string)
    ensures |r| <= |s| && r == s[|s| - |r|..]
    ensures r != [] ==> !IsTrimmed(r[0])
    ensures forall i :: 0 <= i < |s| - |r| ==> IsTrimmed(s[i])
  {
    if s != [] && IsTrimmed(s[0]) then
      var t := s[1..];
      var r := TrimLeft(t);
      assert t[|t| - |r|..] == s[|s| - |r|..];
      assert forall i :: 1 <= i < |s| - |r| ==> s[i] == t[i - 1];
      r
    else s
  }

  function TrimRight(s: string): (r: string)
    ensures |r| <= |s| && r == s[..|r|]
    ensures r != [] ==> !IsTrimmed(r[|r| - 1])
    ensures forall i :: |r| <= i < |s| ==> IsTrimmed(s[i])
  {
    if s != [] && IsTrimmed(s[|s| - 1]) then TrimRight(s[..|s| - 1]) else s
  }

  /** trim($s): the longest infix of `s` that neither starts nor ends with a
      trimmed character, everything around it being trimmed characters. */
  function Trim(s: string): (r: string)
    ensures Contains(s, r)
    ensures r != [] ==> !IsTrimmed(r[0]) && !IsTrimmed(r[|r| - 1])
  {
    var l := TrimLeft(s);
    var r := TrimRight(l);
    assert r == s[|s| - |l|..][..|r|] == s[|s| - |l|..|s| - |l| + |r|];
    assert OccursAt(s, r, |s| - |l|);
    assert r != [] ==> r[0] == l[0];
    r
  }

  /** What TrimRight cuts off the tail of `s` is trimmed characters. */
  lemma TrailingTrimmed(s: string, a: nat, l: string)
    requires a <= |s| && l == s[a..]
    ensures forall i :: a + |TrimRight(l)| <= i < |s| ==> IsTrimmed(s[i])
  {
    var r := TrimRight(l);
    forall i | a + |r| <= i < |s|
      ensures IsTrimmed(s[i])
    {
      assert s[i] == l[i - a];
    }
  }

  /** Where trim() cuts: `s` is a run of trimmed characters, then trim($s),
      then another run of trimmed characters. */
  lemma TrimShape(s: string) returns (a: nat)
    ensures a + |Trim(s)| <= |s| && s[a..a + |Trim(s)|] == Trim(s)
    ensures forall i :: 0 <= i < a ==> IsTrimmed(s[i])
    ensures forall i :: a + |Trim(s)| <= i < |s| ==> IsTrimmed(s[i])
  {
    var l := TrimLeft(s);
    var r := TrimRight(l);
    a := |s| - |l|;
    assert Trim(s) == r;
    assert l == s[a..];
    assert s[a..a + |r|] == r by {
      assert r == l[..|r|];
    }
    TrailingTrimmed(s, a, l);
  }

  /** A string that neither starts nor ends with a trimmed character is its
      own trim. */
  lemma TrimOfUntrimmedEnds(s: string)
    requires s != [] && !IsTrimmed(s[0]) && !IsTrimmed(s[|s| - 1])
    ensures Trim(s) == s
  {
    assert TrimLeft(s) == s;
  }

  /** trim($s) is empty exactly when every character of `s` is trimmed. */
  lemma TrimEmptyIff(s: string)
    ensures Trim(s) == [] <==> forall i :: 0 <= i < |s| ==> IsTrimmed(s[i])
  {
    var a := TrimShape(s);
    var r := Trim(s);
    if r != [] {
      assert s[a] == r[0];
    }
  }

  // ---------------------------------------------------------------------------
  // Decimal digits, intval and strval

  predicate IsDigit(c: char) {
    '0' <= c <= '9'
  }

  predicate AllDigits(s: string) {
    forall i :: 0 <= i < |s| ==> IsDigit(s[i])
  }

  /** The white space PHP skips before the digits of a numeric string. */
  predicate IsNumericSpace(c: char) {
    c == ' ' || c == '\t' || c == '\n' || c == '\r' || c == 11 as char || c == 12 as char
  }

  function DigitValue(c: char): nat
    requires IsDigit(c)
  {
    c as int - '0' as int
  }

  /** The value of a run of decimal digits, most significant first. */
  function DigitsValue(s: string): nat
    requires AllDigits(s)
  {
    if s == [] then 0 else DigitsValue(s[..|s| - 1]) * 10 + DigitValue(s[|s| - 1])
  }

  /** The longest prefix of `s` made of decimal digits. */
  function DigitPrefix(s: string): (r: string)
    ensures |r| <= |s| && AllDigits(r) && r == s[..|r|]
    ensures |r| < |s| ==> !IsDigit(s[|r|])
  {
    if s != [] && IsDigit(s[0]) then [s[0]] + DigitPrefix(s[1..]) else []
  }

  function SkipNumericSpace(s: string): (r: string)
    ensures |r| <= |s| && r == s[|s| - |r|..]
    ensures r != [] ==> !IsNumericSpace(r[0])
  {
    if s != [] && IsNumericSpace(s[0]) then SkipNumericSpace(s[1..]) else s
  }

  /** intval($s) of a string: the integer written by its leading white space,
      optional sign and digits, 0 when there are no digits; IntValSign and
      IntValOfDigits state it. */
  function IntVal(s: string): int {
    var t := SkipNumericSpace(s);
    if t != [] && t[0] == '-' then 0 - DigitsValue(DigitPrefix(t[1..]))
    else if t != [] && t[0] == '+' then DigitsValue(DigitPrefix(t[1..]))
    else DigitsValue(DigitPrefix(t))
  }

  function DigitChar(d: nat): (c: char)
    requires d < 10
    ensures IsDigit(c) && DigitValue(c) == d
  {
    ('0' as int + d) as char
  }

  /** strval($n) of a non-negative integer: its decimal digits, without
      leading zeros, which read back as `n`. */
  function NatToString(n: nat): (r: string)
    ensures r != [] && AllDigits(r) && DigitsValue(r) == n
    ensures |r| > 1 ==> r[0] != '0'
  {
    if n < 10 then [DigitChar(n)]
    else
      var r := NatToString(n / 10) + [DigitChar(n % 10)];
      assert r[..|r| - 1] == NatToString(n / 10);
      r
  }

  lemma {:induction false} DigitPrefixOfDigits(s: string)
    requires AllDigits(s)
    ensures DigitPrefix(s) == s
  {
    if s != [] {
      DigitPrefixOfDigits(s[1..]);
    }
  }

  /** A blank string reads 0, and only a minus sign after the leading white
      space gives a negative number. */
  lemma IntValSign(s: string)
    ensures SkipNumericSpace(s) == [] ==> IntVal(s) == 0
    ensures IntVal(s) < 0 ==> SkipNumericSpace(s)[0] == '-'
  {
  }

  /** A run of digits reads as its decimal value, and with a minus sign in
      front as the negated value. */
  lemma IntValOfDigits(d: string)
    requires d != [] && AllDigits(d)
    ensures IntVal(d) == DigitsValue(d)
    ensures IntVal(['-'] + d) == 0 - DigitsValue(d)
  {
    assert IntVal(d) == DigitsValue(d) by {
      assert !IsNumericSpace(d[0]) && !(d[0] == '-') && d[0] != '+';
      assert SkipNumericSpace(d) == d;
      DigitPrefixOfDigits(d);
    }
    assert IntVal(['-'] + d) == 0 - DigitsValue(d) by {
      var m := ['-'] + d;
      assert SkipNumericSpace(m) == m;
      assert m[1..] == d;
      DigitPrefixOfDigits(d);
    }
  }

  /** intval(strval($n)) == $n for every non-negative integer. */
  lemma IntValOfNatToString(n: nat)
    ensures IntVal(NatToString(n)) == n
  {
    IntValOfDigits(NatToString(n));
  }

  // ---------------------------------------------------------------------------
  // Searching: explode's separator search and stripos

  predicate OccursAt(hay: string, needle: string, j: int) {
    0 <= j && j + |needle| <= |hay| && hay[j..j + |needle|] == needle
  }

  /** The first position at which `needle` occurs in `hay`, if any (what
      strpos returns); FindSpec states it. */
  function Find(hay: string, needle: string): (r: Option<nat>)
    ensures r.Some? ==> r.value + |needle| <= |hay|
    decreases |hay|
  {
    if |hay| < |needle| then None
    else if hay[..|needle|] == needle then Some(0)
    else
      match Find(hay[1..], needle)
      case None => None
      case Some(k) => Some(k + 1)
  }

  /** An occurrence past the first character is one in the tail. */
  lemma OccursAtTail(hay: string, needle: string, j: int)
    requires 1 <= j && 1 <= |hay|
    ensures OccursAt(hay, needle, j) <==> OccursAt(hay[1..], needle, j - 1)
  {
    if j + |needle| <= |hay| {
      assert hay[j..j + |needle|] == hay[1..][j - 1..j - 1 + |needle|];
    }
  }

  /** Find returns the first occurrence, and None only when there is none. */
  lemma {:induction false} FindSpec(hay: string, needle: string)
    ensures Find(hay, needle).Some? ==> OccursAt(hay, needle, Find(hay, needle).value)
    ensures Find(hay, needle).Some? ==> forall j :: 0 <= j < Find(hay, needle).value ==> !OccursAt(hay, needle, j)
    ensures Find(hay, needle).None? ==> forall j :: !OccursAt(hay, needle, j)
    decreases |hay|
  {
    if |hay| < |needle| {
    } else if hay[..|needle|] == needle {
      assert hay[0..|needle|] == hay[..|needle|];
    } else {
      var rest := hay[1..];
      FindSpec(rest, needle);
      assert !OccursAt(hay, needle, 0) by {
        assert hay[0..|needle|] == hay[..|needle|];
      }
      match Find(rest, needle)
      case None =>
        forall j ensures !OccursAt(hay, needle, j) {
          if j >= 1 {
            OccursAtTail(hay, needle, j);
          }
        }
      case Some(k) =>
        OccursAtTail(hay, needle, k + 1);
        forall j | 0 <= j < k + 1 ensures !OccursAt(hay, needle, j) {
          if j >= 1 {
            OccursAtTail(hay, needle, j);
          }
        }
    }
  }

  /** `needle` occurs somewhere in `hay`; Find locates the first place. */
  predicate Contains(hay: string, needle: string) {
    exists j :: 0 <= j <= |hay| && OccursAt(hay, needle, j)
  }

  function LowerChar(c: char): char {
    if 'A' <= c <= 'Z' then (c as int + 32) as char else c
  }

  /** ASCII lower-casing, the folding stripos() applies to both arguments. */
  function Lower(s: string): (r: string)
    ensures |r| == |s| && forall i :: 0 <= i < |s| ==> r[i] == LowerChar(s[i])
  {
    seq(|s|, i requires 0 <= i < |s| => LowerChar(s[i]))
  }

  /** stripos($hay, $needle) !== false. */
  predicate ContainsIgnoringCase(hay: string, needle: string) {
    Contains(Lower(hay), Lower(needle))
  }

  /** A needle holding a character that, folded, never occurs in the folded
      haystack is not contained in it. */
  lemma NotContainsIgnoringCase(hay: string, needle: string, k: nat)
    requires k < |needle|
    requires forall i :: 0 <= i < |hay| ==> LowerChar(hay[i]) != LowerChar(needle[k])
    ensures !ContainsIgnoringCase(hay, needle)
  {
    var h, n := Lower(hay), Lower(needle);
    forall j ensures !OccursAt(h, n, j) {
      if 0 <= j && j + |n| <= |h| {
        assert h[j..j + |n|][k] != n[k];
      }
    }
  }

  /** A needle whose first two characters, folded, never stand side by side
      in the folded haystack is not contained in it. */
  lemma NotContainsIgnoringCasePair(hay: string, needle: string)
    requires |needle| >= 2
    requires forall i :: 0 <= i < |hay| - 1 ==>
      LowerChar(hay[i]) != LowerChar(needle[0]) || LowerChar(hay[i + 1]) != LowerChar(needle[1])
    ensures !ContainsIgnoringCase(hay, needle)
  {
    var h, n := Lower(hay), Lower(needle);
    forall j ensures !OccursAt(h, n, j) {
      if 0 <= j && j + |n| <= |h| {
        assert h[j..j + |n|][0] != n[0] || h[j..j + |n|][1] != n[1];
      }
    }
  }

  lemma LowerSlice(s: string, i: int, j: int)
    requires 0 <= i <= j <= |s|
    ensures Lower(s)[i..j] == Lower(s[i..j])
  {
  }

  /** An occurrence of the folded needle in the folded haystack is enough. */
  lemma ContainsIgnoringCaseAt(hay: string, needle: string, j: int)
    requires OccursAt(Lower(hay), Lower(needle), j)
    ensures ContainsIgnoringCase(hay, needle)
  {
  }

  // ---------------------------------------------------------------------------
  // Numbers: the float-to-integer cast and round()

  /** intval() of a float: truncation toward zero. */
  function Trunc(r: real): (n: int)
    ensures 0.0 <= r ==> n as real <= r < n as real + 1.0
    ensures r < 0.0 ==> n as real - 1.0 < r <= n as real
  {
    if r >= 0.0 then r.Floor else -((-r).Floor)
  }

  /** round() to an integer: halves are rounded away from zero. */
  function RoundHalfAwayFromZero(r: real): (n: int)
    ensures 0.0 <= r ==> r - 0.5 < n as real <= r + 0.5
    ensures r < 0.0 ==> r - 0.5 <= n as real < r + 0.5
  {
    if r >= 0.0 then (r + 0.5).Floor else -((-r + 0.5).Floor)
  }
}
