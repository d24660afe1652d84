/** A result that spans several pages: the page arithmetic over the total
    number of results, the start index and the page size, and the iterator
    over the results of this page. The iterator is PHP's internal array
    pointer, here an index into the results. */
module Paginated {
  import opened Wrappers
  import opened Php

  /** A slot of the results array. PHP's iterator cannot tell an element
      that is `false` from the end of the array, so such an element is kept
      apart from the others. */
  datatype Element<T> = False | Item(value: T)

  /** getCurrentPage's arithmetic: startIndex / itemsPerPage + 1, None where
      PHP divides by zero. */
  function PageOf(startIndex: int, itemsPerPage: int): (r: Option<real>)
    ensures r.None? <==> itemsPerPage == 0
    ensures r.Some? ==> (r.value - 1.0) * itemsPerPage as real == startIndex as real
  {
    if itemsPerPage == 0 then None
    else Some(startIndex as real / itemsPerPage as real + 1.0)
  }

  /** When the page size divides the start index, the current page is the
      whole number of pages before it, plus one. */
  lemma PageOfExact(startIndex: int, itemsPerPage: int, k: int)
    requires itemsPerPage != 0 && startIndex == k * itemsPerPage
    ensures PageOf(startIndex, itemsPerPage) == Some((k + 1) as real)
  {
    var d := itemsPerPage as real;
    assert startIndex as real == k as real * d;
    assert startIndex as real / d == k as real;
  }

  /** getPages' arithmetic: totalResults / itemsPerPage rounded half away
      from zero, None where PHP divides by zero. The result is the whole
      number nearest the exact quotient; a quotient halfway between two
      whole numbers goes to the one farther from zero. */
  function PageCount(totalResults: int, itemsPerPage: int): (r: Option<int>)
    ensures r.None? <==> itemsPerPage == 0
    ensures r.Some? && 0.0 <= totalResults as real / itemsPerPage as real ==>
      var q := totalResults as real / itemsPerPage as real;
      q - 0.5 < r.value as real <= q + 0.5
    ensures r.Some? && totalResults as real / itemsPerPage as real < 0.0 ==>
      var q := totalResults as real / itemsPerPage as real;
      q - 0.5 <= r.value as real < q + 0.5
  {
    if itemsPerPage == 0 then None
    else Some(RoundHalfAwayFromZero(totalResults as real / itemsPerPage as real))
  }

  /** Rounding, not a ceiling: 44 results of 10 per page give 4 pages, 45
      give 5, and 41 give 4 pages, one too few to hold them all. */
  lemma PageCountRounds()
    ensures PageCount(44, 10) == Some(4)
    ensures PageCount(45, 10) == Some(5)
    ensures PageCount(41, 10) == Some(4) && 4 * 10 < 41
  {
    assert (44.0 / 10.0 + 0.5).Floor == 4;
    assert (45.0 / 10.0 + 0.5).Floor == 5;
    assert (41.0 / 10.0 + 0.5).Floor == 4;
  }

  /** The results of this page up to the first `false` element, the ones a
      foreach loop over the iterator visits, with their keys. */
  function Visible<T>(results: seq<Element<T>>): (r: seq<(nat, T)>)
    ensures |r| <= |results|
    ensures forall i :: 0 <= i < |r| ==> r[i].0 == i && results[i] == Item(r[i].1)
    ensures |r| < |results| ==> results[|r|] == False
  {
    if results == [] || results[0] == False then []
    else
      var rest := Visible(results[1..]);
      [(0, results[0].value)] + seq(|rest|, i requires 0 <= i < |rest| => (rest[i].0 + 1, rest[i].1))
  }

  class PaginatedResult<T> {
    const totalResults: int
    const startIndex: int
    const itemsPerPage: int
    const results: seq<Element<T>>
    /** The internal array pointer; |results| is past the end. */
    var pos: nat

    ghost predicate Inv()
      reads this
    {
      pos <= |results|
    }

    /** The constructor stores its arguments; the getters read them back. */
    constructor (totalResults: int, startIndex: int, itemsPerPage: int, results: seq<Element<T>>)
      ensures this.totalResults == totalResults && this.startIndex == startIndex
      ensures this.itemsPerPage == itemsPerPage && this.results == results
      ensures pos == 0 && Inv()
    {
      this.totalResults := totalResults;
      this.startIndex := startIndex;
      this.itemsPerPage := itemsPerPage;
      this.results := results;
      pos := 0;
    }

    function GetCurrentPage(): (r: Option<real>)
      ensures r == PageOf(startIndex, itemsPerPage)
    {
      PageOf(startIndex, itemsPerPage)
    }

    function GetPages(): (r: Option<int>)
      ensures r == PageCount(totalResults, itemsPerPage)
    {
      PageCount(totalResults, itemsPerPage)
    }

    /** count(): the number of results of this page. */
    function Count(): (n: nat)
      ensures n == |results|
    {
      |results|
    }

    method Rewind()
      modifies this
      ensures pos == 0 && Inv()
    {
      pos := 0;
    }

    /** current(): the element under the pointer, false past the end. */
    function Current(): (e: Element<T>)
      reads this
      ensures pos < |results| ==> e == results[pos]
      ensures pos >= |results| ==> e == False
    {
      if pos < |results| then results[pos] else False
    }

    /** key(): the index under the pointer, null past the end. */
    function Key(): (k: Option<nat>)
      reads this
      ensures k.Some? <==> pos < |results|
      ensures k.Some? ==> k.value == pos
    {
      if pos < |results| then Some(pos) else None
    }

    /** next(): the pointer moves one element on, and stays past the end
      once there; the new current element is returned. */
    method Next() returns (e: Element<T>)
      requires Inv()
      modifies this
      ensures Inv()
      ensures pos == if old(pos) < |results| then old(pos) + 1 else old(pos)
      ensures e == Current()
    {
      if pos < |results| {
        pos := pos + 1;
      }
      e := Current();
    }

    /** valid(): the current element is not false, that is, the pointer
        is on an element of the array and that element is not false. */
    predicate IsValid()
      reads this
      ensures IsValid() <==> pos < |results| && results[pos].Item?
    {
      Current() != False
    }

    /** getResults(): rewinds the pointer and returns the results. */
    method GetResults() returns (r: seq<Element<T>>)
      modifies this
      ensures pos == 0 && Inv()
      ensures r == results
    {
      Rewind();
      r := results;
    }

    /** A foreach loop over this result: rewind, then while valid take the
      key and the current element and move on. It visits the results in
      order and stops at the end or at the first false element. */
    method Iterate() returns (visited: seq<(nat, T)>)
      modifies this
      ensures Inv()
      ensures visited == Visible(results)
    {
      Rewind();
      visited := [];
      while IsValid()
        invariant Inv()
        invariant pos <= |Visible(results)|
        invariant visited == Visible(results)[..pos]
        decreases |results| - pos
      {
        var k := Key();
        var c := Current();
        visited := visited + [(k.value, c.value)];
        var _ := Next();
      }
    }
  }
}
