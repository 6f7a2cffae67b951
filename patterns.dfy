/**
 * The URL tests and the three regular expressions the details scraper applies to hrefs:
 * `/season/\d+$`, `/season/(\d+)` and `/season/(\d+)/episode/(\d+)`, each searched from the left.
 */
module Patterns {
  import opened Text
  import opened Models

  /** `self.base_url` of the scraper. */
  const BaseUrl: string := "https://animecix.tv"

  const SeasonMarker: string := "/season/"
  const EpisodeMarker: string := "/episode/"

  /** The length of the run of digits that starts at `i`. */
  function DigitRun(s: string, i: nat): (n: nat)
    requires i <= |s|
    ensures i + n <= |s| && AllDigits(s[i..i + n])
    ensures i + n < |s| ==> !IsDigit(s[i + n])
    decreases |s| - i
  {
    if i < |s| && IsDigit(s[i]) then
      var n := 1 + DigitRun(s, i + 1);
      assert s[i..i + n] == [s[i]] + s[i + 1..i + n];
      n
    else 0
  }

  /** The length of the run of digits that ends the string. */
  function TrailingDigits(s: string): (n: nat)
    ensures n <= |s| && AllDigits(s[|s| - n..])
    ensures n < |s| ==> !IsDigit(s[|s| - n - 1])
  {
    if s != [] && IsDigit(s[|s| - 1]) then
      var n := 1 + TrailingDigits(s[..|s| - 1]);
      assert s[|s| - n..] == s[..|s| - 1][|s| - n..] + [s[|s| - 1]];
      n
    else 0
  }

  /** `"season" in href and "episode" not in href` */
  predicate IsSeasonHref(href: string)
  {
    Contains(href, "season") && !Contains(href, "episode")
  }

  /**
   * The URL the details scraper builds from an href: a `/`-rooted href is appended to the base,
   * and whatever still does not start with `http` is the base, a `/` and the href.
   */
  function DetailUrl(base: string, href: string): (url: string)
  {
    var full := if StartsWith(href, "/") then base + href else href;
    if StartsWith(full, "http") then full else base + "/" + href
  }

  /** `url` without the one line break Python's `$` may stand before. */
  function DropFinalNewline(url: string): (u: string)
    ensures |u| <= |url| && u == url[..|u|]
  {
    if url != [] && url[|url| - 1] == '\n' then url[..|url| - 1] else url
  }

  /** `re.search(r'/season/\d+$', url)` succeeds. */
  predicate EndsWithSeasonNumber(url: string)
  {
    var u := DropFinalNewline(url);
    var n := TrailingDigits(u);
    n > 0 && EndsWith(u[..|u| - n], SeasonMarker)
  }

  /** Any URL that ends in `/season/` and digits, with or without one final line break, passes the test. */
  lemma SeasonSuffixAccepted(stem: string, digits: string, newline: bool)
    requires digits != [] && AllDigits(digits)
    ensures EndsWithSeasonNumber(stem + SeasonMarker + digits + (if newline then "\n" else ""))
  {
    var u := stem + SeasonMarker + digits;
    var url := u + (if newline then "\n" else "");
    assert DropFinalNewline(url) == u by {
      if !newline { assert url == u; assert u[|u| - 1] == digits[|digits| - 1]; }
    }
    TrailingDigitsOfDigitSuffix(stem + SeasonMarker, digits);
    assert u[..|u| - |digits|] == stem + SeasonMarker;
  }

  lemma {:induction false} TrailingDigitsOfDigitSuffix(p: string, digits: string)
    requires AllDigits(digits)
    requires p != [] && !IsDigit(p[|p| - 1])
    ensures TrailingDigits(p + digits) == |digits|
  {
    if digits != [] {
      var s := p + digits;
      assert s[..|s| - 1] == p + digits[..|digits| - 1];
      TrailingDigitsOfDigitSuffix(p, digits[..|digits| - 1]);
    } else {
      assert p + digits == p;
    }
  }

  /** A URL that passes the test is a stem, `/season/`, digits and at most one final line break. */
  lemma AcceptedSeasonUrlShape(url: string)
    requires EndsWithSeasonNumber(url)
    ensures var u := DropFinalNewline(url);
            var n := TrailingDigits(u);
            && u == u[..|u| - n - |SeasonMarker|] + SeasonMarker + u[|u| - n..]
            && n > 0 && AllDigits(u[|u| - n..])
            && (url == u || url == u + "\n")
  {
    var u := DropFinalNewline(url);
    var n := TrailingDigits(u);
    var k := |u| - n - |SeasonMarker|;
    assert u[k..|u| - n] == SeasonMarker by {
      assert u[..|u| - n][k..] == SeasonMarker;
      assert u[..|u| - n][k..] == u[k..|u| - n];
    }
    SplitTwice(u, k, |u| - n);
    DropFinalNewlineShape(url);
  }

  /** Cutting a string at two positions and joining the three pieces gives it back. */
  lemma SplitTwice(s: string, a: nat, b: nat)
    requires a <= b <= |s|
    ensures s == s[..a] + s[a..b] + s[b..]
  {
    assert s[..b] == s[..a] + s[a..b];
    assert s == s[..b] + s[b..];
  }

  /** Dropping the final line break removes one `"\n"` at most. */
  lemma DropFinalNewlineShape(url: string)
    ensures url == DropFinalNewline(url) || url == DropFinalNewline(url) + "\n"
  {
    if url != DropFinalNewline(url) {
      assert url == url[..|url| - 1] + [url[|url| - 1]];
    }
  }

  /** `/season/` followed by at least one digit starts at `i`. */
  predicate SeasonMatchAt(url: string, i: nat)
  {
    i + |SeasonMarker| <= |url| && url[i..i + |SeasonMarker|] == SeasonMarker
    && DigitRun(url, i + |SeasonMarker|) > 0
  }

  /** The digits of the leftmost match of `/season/(\d+)` at or after `i`. */
  function SeasonDigitsFrom(url: string, i: nat): (r: Option<string>)
    requires i <= |url|
    ensures r.Some? ==> r.value != [] && AllDigits(r.value)
    decreases |url| - i
  {
    if i == |url| then None
    else if SeasonMatchAt(url, i) then
      var start := i + |SeasonMarker|;
      Some(url[start..start + DigitRun(url, start)])
    else SeasonDigitsFrom(url, i + 1)
  }

  /** `season_num`: the digits after the leftmost `/season/` that digits follow, or `"1"`. */
  function SeasonNumber(url: string): (r: string)
    ensures r != [] && AllDigits(r)
  {
    match SeasonDigitsFrom(url, 0)
    case Some(digits) => digits
    case None => "1"
  }

  lemma {:induction false} SeasonDigitsFromFirst(url: string, i: nat, m: nat)
    requires i <= m < |url|
    requires SeasonMatchAt(url, m)
    requires forall j :: i <= j < m ==> !SeasonMatchAt(url, j)
    ensures SeasonDigitsFrom(url, i)
         == Some(url[m + |SeasonMarker|..m + |SeasonMarker| + DigitRun(url, m + |SeasonMarker|)])
    decreases m - i
  {
    if i < m {
      SeasonDigitsFromFirst(url, i + 1, m);
    }
  }

  lemma {:induction false} SeasonDigitsFromNone(url: string, i: nat)
    requires i <= |url|
    requires forall j :: i <= j < |url| ==> !SeasonMatchAt(url, j)
    ensures SeasonDigitsFrom(url, i) == None
    decreases |url| - i
  {
    if i < |url| {
      SeasonDigitsFromNone(url, i + 1);
    }
  }

  /** The season number is read at the leftmost match, and is `"1"` when nothing matches. */
  lemma SeasonNumberIsLeftmostMatch(url: string, m: nat)
    requires m < |url| && SeasonMatchAt(url, m)
    requires forall j :: 0 <= j < m ==> !SeasonMatchAt(url, j)
    ensures SeasonNumber(url) == url[m + |SeasonMarker|..m + |SeasonMarker| + DigitRun(url, m + |SeasonMarker|)]
  {
    SeasonDigitsFromFirst(url, 0, m);
  }

  lemma SeasonNumberDefault(url: string)
    requires forall j :: 0 <= j < |url| ==> !SeasonMatchAt(url, j)
    ensures SeasonNumber(url) == "1"
  {
    SeasonDigitsFromNone(url, 0);
  }

  /** `marker` is spelled at `i`. */
  predicate MarkerAt(s: string, i: nat, marker: string)
  {
    i + |marker| <= |s| && s[i..i + |marker|] == marker
  }

  /** The two groups of `/season/(\d+)/episode/(\d+)` when it matches at `i`. */
  function EpisodeMatchAt(href: string, i: nat): (r: Option<(string, string)>)
    requires i <= |href|
    ensures r.Some? ==> r.value.0 != [] && AllDigits(r.value.0) && r.value.1 != [] && AllDigits(r.value.1)
  {
    if MarkerAt(href, i, SeasonMarker) then EpisodeMatchAfter(href, i + |SeasonMarker|) else None
  }

  /** The rest of the match, `(\d+)/episode/(\d+)`, read from `s`. */
  function EpisodeMatchAfter(href: string, s: nat): (r: Option<(string, string)>)
    requires s <= |href|
    ensures r.Some? ==> r.value.0 != [] && AllDigits(r.value.0) && r.value.1 != [] && AllDigits(r.value.1)
  {
    var e := s + DigitRun(href, s);
    var d := e + |EpisodeMarker|;
    if e == s || !MarkerAt(href, e, EpisodeMarker) then None
    else
      var end := d + DigitRun(href, d);
      if end == d then None else Some((href[s..e], href[d..end]))
  }

  /** The groups of the leftmost match at or after `i`. */
  function EpisodeGroupsFrom(href: string, i: nat): (r: Option<(string, string)>)
    requires i <= |href|
    ensures r.Some? ==> r.value.0 != [] && AllDigits(r.value.0) && r.value.1 != [] && AllDigits(r.value.1)
    decreases |href| - i
  {
    if i == |href| then None
    else if EpisodeMatchAt(href, i).Some? then EpisodeMatchAt(href, i)
    else EpisodeGroupsFrom(href, i + 1)
  }

  /** `re.search(r'/season/(\d+)/episode/(\d+)', href)`: the season and episode digits, if it matches. */
  function ParseEpisodeHref(href: string): Option<(string, string)>
  {
    EpisodeGroupsFrom(href, 0)
  }

  lemma {:induction false} EpisodeGroupsFromFirst(href: string, i: nat, m: nat)
    requires i <= m < |href|
    requires EpisodeMatchAt(href, m).Some?
    requires forall j :: i <= j < m ==> EpisodeMatchAt(href, j).None?
    ensures EpisodeGroupsFrom(href, i) == EpisodeMatchAt(href, m)
    decreases m - i
  {
    if i < m {
      EpisodeGroupsFromFirst(href, i + 1, m);
    }
  }

  lemma {:induction false} EpisodeGroupsFromNone(href: string, i: nat)
    requires i <= |href|
    requires forall j :: i <= j < |href| ==> EpisodeMatchAt(href, j).None?
    ensures EpisodeGroupsFrom(href, i) == None
    decreases |href| - i
  {
    if i < |href| {
      EpisodeGroupsFromNone(href, i + 1);
    }
  }

  /** An episode href is read at the leftmost match of the pattern, and is rejected when nothing matches. */
  lemma ParseEpisodeHrefIsLeftmostMatch(href: string)
    ensures (forall j :: 0 <= j < |href| ==> EpisodeMatchAt(href, j).None?) ==> ParseEpisodeHref(href) == None
    ensures forall m :: 0 <= m < |href| && EpisodeMatchAt(href, m).Some?
                        && (forall j :: 0 <= j < m ==> EpisodeMatchAt(href, j).None?)
                        ==> ParseEpisodeHref(href) == EpisodeMatchAt(href, m)
  {
    if forall j :: 0 <= j < |href| ==> EpisodeMatchAt(href, j).None? {
      EpisodeGroupsFromNone(href, 0);
    }
    forall m | 0 <= m < |href| && EpisodeMatchAt(href, m).Some?
               && (forall j :: 0 <= j < m ==> EpisodeMatchAt(href, j).None?)
      ensures ParseEpisodeHref(href) == EpisodeMatchAt(href, m)
    {
      EpisodeGroupsFromFirst(href, 0, m);
    }
  }

  /** A match spells `/season/`, the season digits, `/episode/` and the episode digits at its position. */
  lemma EpisodeMatchSpells(href: string, i: nat)
    requires i <= |href| && EpisodeMatchAt(href, i).Some?
    ensures var groups := EpisodeMatchAt(href, i).value;
            var end := i + |SeasonMarker| + |groups.0| + |EpisodeMarker| + |groups.1|;
            && end <= |href|
            && href[i..end] == SeasonMarker + groups.0 + EpisodeMarker + groups.1
            && (end < |href| ==> !IsDigit(href[end]))
  {
    var s := i + |SeasonMarker|;
    var e := s + DigitRun(href, s);
    var d := e + |EpisodeMarker|;
    var end := d + DigitRun(href, d);
    var groups := EpisodeMatchAt(href, i).value;
    assert groups.0 == href[s..e] && groups.1 == href[d..end];
    MarkedSlice(href, i, s, e, d, end);
  }

  /**
   * The converse: where `/season/`, digits, `/episode/` and digits are spelled out at `i`, the pattern
   * matches there with the season digits as group 1, and with the episode digits as group 2 when no
   * further digit follows them (`\d+` is greedy).
   */
  lemma EpisodeMatchOfSpelling(href: string, i: nat, season: string, number: string)
    requires season != [] && AllDigits(season) && number != [] && AllDigits(number)
    requires var s := i + |SeasonMarker|;
             var e := s + |season|;
             var d := e + |EpisodeMarker|;
             && d + |number| <= |href|
             && href[i..s] == SeasonMarker && href[s..e] == season
             && href[e..d] == EpisodeMarker && href[d..d + |number|] == number
    ensures EpisodeMatchAt(href, i).Some? && EpisodeMatchAt(href, i).value.0 == season
    ensures var end := i + |SeasonMarker| + |season| + |EpisodeMarker| + |number|;
            end == |href| || !IsDigit(href[end]) ==> EpisodeMatchAt(href, i) == Some((season, number))
  {
    var s := i + |SeasonMarker|;
    var e := s + |season|;
    var d := e + |EpisodeMarker|;
    var end := d + |number|;
    MatchOfParts(href, i, s, e, d, end, season, number);
    if end == |href| || !IsDigit(href[end]) {
      DigitRunExact(href, d, number);
    }
  }

  /**
   * The marker, the season digits, the marker and the number digits at their positions make a
   * match at `i` whose group 1 is the season and whose group 2 starts with the number.
   */
  lemma MatchOfParts(href: string, i: nat, s: nat, e: nat, d: nat, end: nat, season: string, number: string)
    requires season != [] && AllDigits(season) && number != [] && AllDigits(number)
    requires s == i + |SeasonMarker| && e == s + |season| && d == e + |EpisodeMarker| && end == d + |number|
    requires end <= |href|
    requires href[i..s] == SeasonMarker && href[s..e] == season && href[e..d] == EpisodeMarker && href[d..end] == number
    ensures DigitRun(href, d) >= |number|
    ensures EpisodeMatchAt(href, i) == Some((season, href[d..d + DigitRun(href, d)]))
  {
    assert DigitRun(href, s) == |season| by {
      assert href[e] == href[e..d][0] == '/';
      DigitRunExact(href, s, season);
    }
    assert DigitRun(href, d) >= |number| by {
      DigitRunAtLeast(href, d, number);
    }
    MatchFromParts(href, i, s, e, d, d + DigitRun(href, d));
  }

  /** The markers and the two digit runs, found at their positions, make the match at `i`. */
  lemma MatchFromParts(href: string, i: nat, s: nat, e: nat, d: nat, end: nat)
    requires s == i + |SeasonMarker| && d == e + |EpisodeMarker|
    requires s < e && d < end <= |href|
    requires MarkerAt(href, i, SeasonMarker) && MarkerAt(href, e, EpisodeMarker)
    requires DigitRun(href, s) == e - s && DigitRun(href, d) == end - d
    ensures EpisodeMatchAt(href, i) == Some((href[s..e], href[d..end]))
  {
    assert EpisodeMatchAfter(href, s) == Some((href[s..e], href[d..end]));
  }

  /** A run of at least `|digits|` digits starts where `digits` is spelled. */
  lemma {:induction false} DigitRunAtLeast(s: string, i: nat, digits: string)
    requires AllDigits(digits) && i + |digits| <= |s| && s[i..i + |digits|] == digits
    ensures DigitRun(s, i) >= |digits|
    decreases |digits|
  {
    if digits != [] {
      assert s[i] == digits[0];
      assert s[i + 1..i + |digits|] == digits[1..];
      DigitRunAtLeast(s, i + 1, digits[1..]);
    }
  }

  /** The run is exactly `digits` when a non-digit or the end of the string follows them. */
  lemma {:induction false} DigitRunExact(s: string, i: nat, digits: string)
    requires AllDigits(digits) && i + |digits| <= |s| && s[i..i + |digits|] == digits
    requires i + |digits| == |s| || !IsDigit(s[i + |digits|])
    ensures DigitRun(s, i) == |digits|
    decreases |digits|
  {
    if digits != [] {
      assert s[i] == digits[0];
      assert s[i + 1..i + |digits|] == digits[1..];
      DigitRunExact(s, i + 1, digits[1..]);
    }
  }

  /** A slice that holds both markers at the given positions spells them around the two digit runs. */
  lemma MarkedSlice(t: string, i: nat, s: nat, e: nat, d: nat, end: nat)
    requires i <= s <= e <= d <= end <= |t|
    requires t[i..s] == SeasonMarker && t[e..d] == EpisodeMarker
    ensures t[i..end] == SeasonMarker + t[s..e] + EpisodeMarker + t[d..end]
  {
    assert t[i..end] == t[i..s] + t[s..end];
    assert t[s..end] == t[s..e] + t[e..end];
    assert t[e..end] == t[e..d] + t[d..end];
  }
}
