/** The HTTP side of the callers: the response-header line parser shared by
    both callers (a field name, ": ", a value, in the spirit of section 3.2
    of RFC 7230), the request text the socket caller writes, and the split of
    the lines it reads back into header lines and body. */
module Http {
  import opened Wrappers
  import opened Php

  const ApiUrl: string := "http://ws.audioscrobbler.com/2.0/"
  /** parse_url of the API URL: its host and its path. */
  const ApiHost: string := "ws.audioscrobbler.com"
  const ApiPath: string := "/2.0/"

  /** The User-Agent both callers send. */
  function UserAgent(phpVersion: string): string {
    "PHP last.fm API (PHP/" + phpVersion + ")"
  }

  const Separator: string := ": "

  /** explode(': ', $line, 2): the text before the first ": " and the text
      after it, None when the line has no ": "; SplitHeaderSpec states it. */
  function SplitHeader(line: string): Option<(string, string)> {
    match Find(line, Separator)
    case None => None
    case Some(k) => Some((line[..k], line[k + 2..]))
  }

  /** A line splits exactly when it holds ": "; the name never holds the
      separator, and name, separator and value give back the line. */
  lemma SplitHeaderSpec(line: string)
    ensures SplitHeader(line).Some? <==> Contains(line, Separator)
    ensures SplitHeader(line).Some? ==> line == SplitHeader(line).value.0 + Separator + SplitHeader(line).value.1
    ensures SplitHeader(line).Some? ==> !Contains(SplitHeader(line).value.0, Separator)
  {
    FindSpec(line, Separator);
    match Find(line, Separator)
    case None =>
    case Some(k) =>
      var name := line[..k];
      assert OccursAt(line, Separator, k);
      assert line == name + Separator + line[k + 2..] by {
        assert line[k..k + 2] == Separator;
      }
      forall j | OccursAt(name, Separator, j)
        ensures false
      {
        assert line[j..j + 2] == name[j..j + 2];
        assert OccursAt(line, Separator, j);
      }
  }

  /** The header callback's effect on the header array: a line with ": "
      sets its name (untrimmed) to its trimmed value, replacing an earlier
      value; any other line leaves the array alone. */
  function AddHeader(headers: map<string, string>, line: string): map<string, string> {
    match SplitHeader(line)
    case None => headers
    case Some((name, value)) => headers[name := Trim(value)]
  }

  /** The header array after the callback has seen `lines` in order. */
  function HeaderMap(headers: map<string, string>, lines: seq<string>): map<string, string> {
    if lines == [] then headers
    else AddHeader(HeaderMap(headers, lines[..|lines| - 1]), lines[|lines| - 1])
  }

  /** One more line through the callback. */
  lemma HeaderMapSnoc(headers: map<string, string>, lines: seq<string>, line: string)
    ensures HeaderMap(headers, lines + [line]) == AddHeader(HeaderMap(headers, lines), line)
  {
    assert (lines + [line])[..|lines|] == lines;
  }

  /** A later line for the same name wins. */
  lemma {:induction false} HeaderMapLastWins(lines: seq<string>, i: int, name: string, value: string)
    requires 0 <= i < |lines| && SplitHeader(lines[i]) == Some((name, value))
    requires forall j :: i < j < |lines| ==> SplitHeader(lines[j]).None? || SplitHeader(lines[j]).value.0 != name
    ensures name in HeaderMap(map[], lines) && HeaderMap(map[], lines)[name] == Trim(value)
    decreases |lines|
  {
    if i < |lines| - 1 {
      var init := lines[..|lines| - 1];
      assert init[i] == lines[i];
      HeaderMapLastWins(init, i, name, value);
    }
  }

  /** A name no line carries is absent from the header array. */
  lemma {:induction false} HeaderMapAbsent(lines: seq<string>, name: string)
    requires forall j :: 0 <= j < |lines| ==> SplitHeader(lines[j]).None? || SplitHeader(lines[j]).value.0 != name
    ensures name !in HeaderMap(map[], lines)
    decreases |lines|
  {
    if lines != [] {
      HeaderMapAbsent(lines[..|lines| - 1], name);
    }
  }

  // ---------------------------------------------------------------------------
  // The socket caller's request

  /** The header lines both requests carry after the request line. */
  function CommonHeaders(phpVersion: string): string {
    "Host: " + ApiHost + "\r\n" + "User-Agent: " + UserAgent(phpVersion) + "\r\n"
  }

  const CloseLine: string := "Connection: Close\r\n\r\n"

  /** A POST carries the query as its body, with a form content type and
      its length. */
  function PostRequest(query: string, phpVersion: string): string {
    "POST " + ApiPath + " HTTP/1.1\r\n"
    + CommonHeaders(phpVersion)
    + "Content-Type: application/x-www-form-urlencoded\r\n"
    + "Content-Length: " + NatToString(|query|) + "\r\n"
    + CloseLine
    + query
  }

  /** A GET carries the query in the request target and has no body. */
  function GetRequest(query: string, phpVersion: string): string {
    "GET " + (ApiPath + "?" + query) + (" HTTP/1.1\r\n" + CommonHeaders(phpVersion) + CloseLine)
  }

  /** The request the socket caller writes. */
  function RequestText(requestMethod: string, query: string, phpVersion: string): string {
    if requestMethod == "POST" then PostRequest(query, phpVersion) else GetRequest(query, phpVersion)
  }

  /** A POST request ends with its query, and its Content-Length line states
      the query's length, which reads back through intval. */
  lemma PostRequestShape(query: string, phpVersion: string)
    ensures var t := RequestText("POST", query, phpVersion);
      |query| <= |t| && t[|t| - |query|..] == query
    ensures IntVal(NatToString(|query|)) == |query|
  {
    var t := RequestText("POST", query, phpVersion);
    var head := "POST " + ApiPath + " HTTP/1.1\r\n"
      + CommonHeaders(phpVersion)
      + "Content-Type: application/x-www-form-urlencoded\r\n"
      + "Content-Length: " + NatToString(|query|) + "\r\n"
      + CloseLine;
    assert t == head + query;
    assert t[|head|..] == query;
    IntValOfNatToString(|query|);
  }

  /** Splitting a concatenation of three parts gives back the parts. */
  lemma ThreeParts(a: string, b: string, c: string)
    ensures (a + b + c)[..|a|] == a
    ensures (a + b + c)[|a|..|a| + |b|] == b
    ensures (a + b + c)[|a| + |b|..] == c
  {
  }

  /** Any method other than POST is sent as a GET: the request starts with
      "GET ", the target that follows is the API path, "?" and the query,
      and the request ends with the blank line. */
  lemma NonPostIsGet(requestMethod: string, query: string, phpVersion: string)
    requires requestMethod != "POST"
    ensures var t := RequestText(requestMethod, query, phpVersion);
      t == GetRequest(query, phpVersion) &&
      t[..4] == "GET " && t[4..4 + |ApiPath| + 1 + |query|] == ApiPath + "?" + query &&
      t[|t| - 4..] == "\r\n\r\n"
  {
    var target := ApiPath + "?" + query;
    var trailer := " HTTP/1.1\r\n" + CommonHeaders(phpVersion) + CloseLine;
    ThreeParts("GET ", target, trailer);
    assert trailer[|trailer| - 4..] == CloseLine[|CloseLine| - 4..];
  }

  // ---------------------------------------------------------------------------
  // The socket caller's response

  const Blank: string := "\r\n"

  /** The first blank line at or after `from`, |lines| when there is none. */
  function NextBlank(lines: seq<string>, from: nat): (k: nat)
    requires from <= |lines|
    ensures from <= k <= |lines|
    ensures k < |lines| ==> lines[k] == Blank
    ensures forall j :: from <= j < k ==> lines[j] != Blank
    decreases |lines| - from
  {
    if from == |lines| || lines[from] == Blank then from else NextBlank(lines, from + 1)
  }

  /** The header lines: everything before the first blank line. */
  function HeaderLines(lines: seq<string>): (r: seq<string>)
    ensures |r| <= |lines| && r == lines[..|r|]
    ensures forall j :: 0 <= j < |r| ==> r[j] != Blank
    ensures |r| < |lines| ==> lines[|r|] == Blank
  {
    lines[..NextBlank(lines, 0)]
  }

  function Concat(lines: seq<string>): string {
    if lines == [] then "" else Concat(lines[..|lines| - 1]) + lines[|lines| - 1]
  }

  /** The body: the lines after the first blank line up to the next one, or
      to the end; nothing when the header never ended. */
  function BodyLines(lines: seq<string>): (r: seq<string>)
    ensures forall j :: 0 <= j < |r| ==> r[j] != Blank
  {
    var h := NextBlank(lines, 0);
    if h == |lines| then [] else lines[h + 1..NextBlank(lines, h + 1)]
  }

  function Body(lines: seq<string>): string {
    Concat(BodyLines(lines))
  }

  /** NextBlank finds the first blank line, or the end. */
  lemma {:induction false} NextBlankIs(lines: seq<string>, from: nat, k: nat)
    requires from <= k <= |lines|
    requires k < |lines| ==> lines[k] == Blank
    requires forall j :: from <= j < k ==> lines[j] != Blank
    ensures NextBlank(lines, from) == k
    decreases k - from
  {
    if from < k {
      NextBlankIs(lines, from + 1, k);
    }
  }

  /** The header lines end at the first blank line. */
  lemma HeaderLinesOf(head: seq<string>, tail: seq<string>)
    requires forall j :: 0 <= j < |head| ==> head[j] != Blank
    ensures HeaderLines(head + [Blank] + tail) == head
  {
    var lines := head + [Blank] + tail;
    NextBlankIs(lines, 0, |head|);
    assert lines[..|head|] == head;
  }

  /** The body lines lie between the first blank line and the next. */
  lemma BodyLinesBetween(lines: seq<string>, h: nat, e: nat)
    requires h < e <= |lines| || h + 1 == e <= |lines|
    requires h < |lines| && lines[h] == Blank
    requires forall j :: 0 <= j < h ==> lines[j] != Blank
    requires e < |lines| ==> lines[e] == Blank
    requires forall j :: h + 1 <= j < e ==> lines[j] != Blank
    ensures BodyLines(lines) == lines[h + 1..e]
  {
    NextBlankIs(lines, 0, h);
    NextBlankIs(lines, h + 1, e);
  }

  lemma LayoutOf(head: seq<string>, body: seq<string>, rest: seq<string>)
    ensures var lines := head + [Blank] + body + rest;
      && |lines| == |head| + 1 + |body| + |rest|
      && (forall j :: 0 <= j < |head| ==> lines[j] == head[j])
      && lines[|head|] == Blank
      && (forall j :: |head| + 1 <= j < |head| + 1 + |body| ==> lines[j] == body[j - |head| - 1])
      && lines[|head| + 1..|head| + 1 + |body|] == body
      && (rest != [] ==> lines[|head| + 1 + |body|] == rest[0])
  {
  }

  /** The body is everything between the first blank line and the next one
      (or the end): a blank line inside the body cuts it short there. */
  lemma BodyOf(head: seq<string>, body: seq<string>, rest: seq<string>)
    requires forall j :: 0 <= j < |head| ==> head[j] != Blank
    requires forall j :: 0 <= j < |body| ==> body[j] != Blank
    requires rest == [] || rest[0] == Blank
    ensures Body(head + [Blank] + body + rest) == Concat(body)
  {
    var lines := head + [Blank] + body + rest;
    LayoutOf(head, body, rest);
    BodyLinesBetween(lines, |head|, |head| + 1 + |body|);
  }

  /** A response whose header never ends (no blank line) has an empty body. */
  lemma NoBlankNoBody(lines: seq<string>)
    requires forall j :: 0 <= j < |lines| ==> lines[j] != Blank
    ensures HeaderLines(lines) == lines && Body(lines) == ""
  {
    NextBlankIs(lines, 0, |lines|);
  }

  /** The Expires header as an expiration time: strtotime of its value, a
      failed conversion (false) stored as 0. */
  function ExpiresAt(value: string, strtotime: string -> Option<int>): (t: real)
    ensures strtotime(value).Some? ==> t == strtotime(value).value as real
    ensures strtotime(value).None? ==> t == 0.0
  {
    match strtotime(value)
    case Some(n) => n as real
    case None => 0.0
  }
}
