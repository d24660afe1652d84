/** The default cache policy: how long the response to a request may be
    cached, in seconds, judged from the request parameters; -1 means "do not
    cache". Weekly charts are cached for a year when they name a past range
    and for a settable time otherwise; fifteen methods whose answers change
    slowly are cached for a week; nothing else is cached. */
module CachePolicy {
  import opened Wrappers
  import opened Php
  import opened Params

  const MINUTE: int := 60
  const HOUR: int := MINUTE * 60
  const DAY: int := HOUR * 24
  const WEEK: int := DAY * 7
  /** A month and a year are computed with a floating-point factor; here
      they are exact reals. */
  const MONTH: real := WEEK as real * 4.34812141
  const YEAR: real := MONTH * 12.0

  /** The methods whose responses are cached for a week. */
  const WeeklyMethods: seq<string> := [
    "artist.getSimilar", "tag.getSimilar", "track.getSimilar",
    "artist.getTopAlbums", "artist.getTopTracks",
    "geo.getTopArtists", "geo.getTopTracks",
    "tag.getTopAlbums", "tag.getTopArtists", "tag.getTopTags", "tag.getTopTracks",
    "user.getTopAlbums", "user.getTopArtists", "user.getTopTags", "user.getTopTracks"]

  /** A week is 604800 seconds; a month and a year are not whole numbers of
      seconds. */
  lemma Durations()
    ensures WEEK == 604800
    ensures MONTH.Floor as real < MONTH && YEAR.Floor as real < YEAR
    ensures 31556925 < YEAR.Floor + 1 && YEAR < 31556926.0
  {
  }

  /** `$params['method']`, with an absent method read as the empty string. */
  function MethodOf(params: Params): (m: string)
    ensures "method" in Keys(params) ==> Some(m) == Lookup(params, "method")
    ensures "method" !in Keys(params) ==> m == ""
  {
    Lookup(params, "method").GetOr("")
  }

  /** A chart method names "weekly" but not "list", in any letter case. */
  predicate IsChartMethod(m: string) {
    ContainsIgnoringCase(m, "Weekly") && !ContainsIgnoringCase(m, "List")
  }

  /** getExpirationTime with a given weekly-charts expiration. `to` and
      `from` are looked for among the parameter VALUES, as in_array does. */
  function ExpirationTime(params: Params, weeklyChartsExpiration: int): (r: real)
    ensures IsChartMethod(MethodOf(params)) && HasValue(params, "to") && HasValue(params, "from")
      ==> r == YEAR
    ensures IsChartMethod(MethodOf(params)) && !(HasValue(params, "to") && HasValue(params, "from"))
      ==> r == weeklyChartsExpiration as real
    ensures !IsChartMethod(MethodOf(params)) ==>
      (r == WEEK as real <==> MethodOf(params) in WeeklyMethods) &&
      (r == -1.0 <==> MethodOf(params) !in WeeklyMethods)
  {
    var m := MethodOf(params);
    if IsChartMethod(m) then
      if HasValue(params, "to") && HasValue(params, "from") then YEAR
      else weeklyChartsExpiration as real
    else if m in WeeklyMethods then WEEK as real
    else -1.0
  }

  /** A response is cached (the time is positive) exactly for a chart method
      naming a range, a chart method while the weekly-charts expiration is
      positive, or one of the fifteen weekly methods. */
  lemma CacheableIff(params: Params, weeklyChartsExpiration: int)
    ensures ExpirationTime(params, weeklyChartsExpiration) > 0.0 <==>
      (IsChartMethod(MethodOf(params)) &&
        ((HasValue(params, "to") && HasValue(params, "from")) || weeklyChartsExpiration > 0)) ||
      (!IsChartMethod(MethodOf(params)) && MethodOf(params) in WeeklyMethods)
  {
  }

  /** Only the weekly-charts branch without a range depends on the setting. */
  lemma SettingOnlyAffectsCharts(params: Params, e1: int, e2: int)
    requires !IsChartMethod(MethodOf(params)) || (HasValue(params, "to") && HasValue(params, "from"))
    ensures ExpirationTime(params, e1) == ExpirationTime(params, e2)
  {
  }

  /** A method given first is the method read back. */
  lemma MethodOfLeading(m: string, rest: Params)
    ensures MethodOf([("method", m)] + rest) == m
  {
  }

  lemma SimilarArtistsIsWeeklyMethod()
    ensures !IsChartMethod("artist.getSimilar") && "artist.getSimilar" in WeeklyMethods
  {
    NotContainsIgnoringCase("artist.getSimilar", "Weekly", 0);
  }

  lemma ChartListNamesList(m: string)
    requires m == "user.getWeeklyChartList"
    ensures ContainsIgnoringCase(m, "List")
  {
    assert m[19..23] == "List";
    LowerSlice(m, 19, 23);
    ContainsIgnoringCaseAt(m, "List", 19);
  }

  lemma ChartListIsNotChart(m: string)
    requires m == "user.getWeeklyChartList"
    ensures !IsChartMethod(m)
  {
    ChartListNamesList(m);
  }

  lemma ChartListIsNotWeekly()
    ensures "user.getWeeklyChartList" !in WeeklyMethods
  {
  }

  lemma TrackChartNamesWeekly(m: string)
    requires m == "user.getWeeklyTrackChart"
    ensures ContainsIgnoringCase(m, "Weekly")
  {
    assert m[8..14] == "Weekly";
    LowerSlice(m, 8, 14);
    ContainsIgnoringCaseAt(m, "Weekly", 8);
  }

  lemma TrackChartOmitsList(m: string)
    requires m == "user.getWeeklyTrackChart"
    ensures !ContainsIgnoringCase(m, "List")
  {
    NotContainsIgnoringCasePair(m, "List");
  }

  lemma TrackChartIsChart()
    ensures IsChartMethod("user.getWeeklyTrackChart")
  {
    TrackChartNamesWeekly("user.getWeeklyTrackChart");
    TrackChartOmitsList("user.getWeeklyTrackChart");
  }

  /** artist.getSimilar is cached for a week. */
  lemma SimilarArtistsCachedForAWeek()
    ensures ExpirationTime([("method", "artist.getSimilar")], WEEK) == 604800.0
  {
    MethodOfLeading("artist.getSimilar", []);
    SimilarArtistsIsWeeklyMethod();
  }

  /** user.getWeeklyChartList names "weekly" and "list": it is not a chart
      and not a weekly method, so it is never cached. */
  lemma ChartListNotCached(weeklyChartsExpiration: int)
    ensures ExpirationTime([("method", "user.getWeeklyChartList")], weeklyChartsExpiration) == -1.0
  {
    MethodOfLeading("user.getWeeklyChartList", []);
    ChartListIsNotChart("user.getWeeklyChartList");
    ChartListIsNotWeekly();
  }

  /** album.getInfo names no "weekly" and is not a weekly method: it is
      never cached. */
  lemma AlbumInfoNotCached(weeklyChartsExpiration: int)
    ensures ExpirationTime([("method", "album.getInfo")], weeklyChartsExpiration) == -1.0
  {
    MethodOfLeading("album.getInfo", []);
    NotContainsIgnoringCase("album.getInfo", "Weekly", 0);
  }

  /** A weekly chart over a given range (the values "to" and "from" are
      present, under any names) is cached for a year. */
  lemma WeeklyChartWithRange(params: Params, weeklyChartsExpiration: int)
    requires MethodOf(params) == "user.getWeeklyTrackChart"
    requires HasValue(params, "to") && HasValue(params, "from")
    ensures ExpirationTime(params, weeklyChartsExpiration) == YEAR
  {
    TrackChartIsChart();
  }

  /** Without a range the same chart is cached for the weekly-charts
      expiration. */
  lemma WeeklyChartWithoutRange(params: Params, weeklyChartsExpiration: int)
    requires MethodOf(params) == "user.getWeeklyTrackChart"
    requires !HasValue(params, "to")
    ensures ExpirationTime(params, weeklyChartsExpiration) == weeklyChartsExpiration as real
  {
    TrackChartIsChart();
  }

  /** The way the chart methods are called, with parameters NAMED from and
      to holding timestamps, is not a range to the policy: those values are
      not "to" and "from", so the response gets the weekly-charts
      expiration, not a year. */
  lemma TimestampRangeNotAYear(weeklyChartsExpiration: int)
    ensures ExpirationTime([("method", "user.getWeeklyTrackChart"), ("from", "1230000000"), ("to", "1240000000")],
                           weeklyChartsExpiration) == weeklyChartsExpiration as real
  {
    var p: Params := [("method", "user.getWeeklyTrackChart"), ("from", "1230000000"), ("to", "1240000000")];
    MethodOfLeading("user.getWeeklyTrackChart", p[1..]);
    assert Values(p) == ["user.getWeeklyTrackChart", "1230000000", "1240000000"];
    WeeklyChartWithoutRange(p, weeklyChartsExpiration);
  }

  /** The default policy with its one setting. */
  class DefaultCachePolicy {
    var weeklyChartsExpiration: int

    /** A new policy caches weekly charts for a week. */
    constructor ()
      ensures weeklyChartsExpiration == WEEK
    {
      weeklyChartsExpiration := WEEK;
    }

    function GetExpirationTime(params: Params): (r: real)
      reads this
      ensures r == ExpirationTime(params, weeklyChartsExpiration)
    {
      ExpirationTime(params, weeklyChartsExpiration)
    }

    function GetWeeklyChartsExpiration(): (e: int)
      reads this
      ensures e == weeklyChartsExpiration
    {
      weeklyChartsExpiration
    }

    method SetWeeklyChartsExpiration(expiration: int)
      modifies this
      ensures weeklyChartsExpiration == expiration
    {
      weeklyChartsExpiration := expiration;
    }
  }
}
