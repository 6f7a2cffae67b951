/**
 * `get_anime_details` once the browser is taken away: which links of the anime page are
 * season URLs, which links of each season page are its episodes, and how the seasons are
 * visited and assembled.
 */
module Details {
  import opened Text
  import opened Models
  import opened Patterns
  import opened Dedup
  import opened LexOrder

  /** A season page after loading: the href of each `/episode/` link, or the error loading it raised. */
  datatype SeasonPage = Loaded(hrefs: seq<Option<string>>) | LoadFailed(message: string)

  // ---------------------------------------------------------------- season URLs

  /** A link of the anime page names a season: a non-empty href that mentions `season` and not `episode`, whose URL ends in `/season/<digits>`. */
  predicate AcceptsSeasonLink(base: string, href: Option<string>)
  {
    Truthy(href) && IsSeasonHref(href.value) && EndsWithSeasonNumber(DetailUrl(base, href.value))
  }

  /** The season URL a link of the anime page names, if it names one. */
  function SeasonLinkUrl(base: string, href: Option<string>): Option<string>
  {
    if AcceptsSeasonLink(base, href) then Some(DetailUrl(base, href.value)) else None
  }

  function SeasonLinkUrls(base: string): Option<string> -> Option<string>
  {
    href => SeasonLinkUrl(base, href)
  }

  /** The URLs `f` gives for the links. */
  function Gathered(hrefs: seq<Option<string>>, f: Option<string> -> Option<string>): set<string>
  {
    if hrefs == [] then {}
    else
      var last := f(hrefs[|hrefs| - 1]);
      Gathered(hrefs[..|hrefs| - 1], f) + (if last.Some? then {last.value} else {})
  }

  lemma {:induction false} GatheredMembership(hrefs: seq<Option<string>>, f: Option<string> -> Option<string>, url: string)
    ensures url in Gathered(hrefs, f) <==> exists k :: 0 <= k < |hrefs| && f(hrefs[k]) == Some(url)
  {
    if hrefs != [] {
      var n := |hrefs|;
      var prefix := hrefs[..n - 1];
      GatheredMembership(prefix, f, url);
      if url in Gathered(prefix, f) {
        var k :| 0 <= k < |prefix| && f(prefix[k]) == Some(url);
        assert hrefs[k] == prefix[k];
      }
      if exists k :: 0 <= k < n && f(hrefs[k]) == Some(url) {
        var k :| 0 <= k < n && f(hrefs[k]) == Some(url);
        if k < n - 1 {
          assert prefix[k] == hrefs[k];
        }
      }
    }
  }

  /** The URLs of the accepted links. */
  function AcceptedSeasonUrls(base: string, hrefs: seq<Option<string>>): set<string>
  {
    Gathered(hrefs, SeasonLinkUrls(base))
  }

  /** The seasons to visit: the accepted URLs, or the anime URL alone when there is none. */
  function SeasonUrls(base: string, animeUrl: string, hrefs: seq<Option<string>>): set<string>
  {
    var accepted := AcceptedSeasonUrls(base, hrefs);
    if accepted == {} then {animeUrl} else accepted
  }

  /** A URL is accepted exactly when some accepted link of the page normalises to it. */
  lemma AcceptedSeasonUrlsMembership(base: string, hrefs: seq<Option<string>>, url: string)
    ensures url in AcceptedSeasonUrls(base, hrefs) <==>
            exists k :: 0 <= k < |hrefs| && AcceptsSeasonLink(base, hrefs[k]) && url == DetailUrl(base, hrefs[k].value)
  {
    GatheredMembership(hrefs, SeasonLinkUrls(base), url);
    assert forall k :: 0 <= k < |hrefs| ==> SeasonLinkUrls(base)(hrefs[k]) == SeasonLinkUrl(base, hrefs[k]);
  }

  /** Every season URL visited is an accepted URL ending in `/season/<digits>`, or the anime URL when none was accepted. */
  lemma SeasonUrlsAreSeasonPagesOrFallback(base: string, animeUrl: string, hrefs: seq<Option<string>>)
    ensures SeasonUrls(base, animeUrl, hrefs) != {}
    ensures AcceptedSeasonUrls(base, hrefs) == {} ==> SeasonUrls(base, animeUrl, hrefs) == {animeUrl}
    ensures forall url :: url in AcceptedSeasonUrls(base, hrefs) ==> EndsWithSeasonNumber(url)
  {
    forall url | url in AcceptedSeasonUrls(base, hrefs) ensures EndsWithSeasonNumber(url) {
      AcceptedSeasonUrlsMembership(base, hrefs, url);
    }
  }

  /** The loop over the page's links that fills `season_urls`, then the fallback to the anime URL. */
  method CollectSeasonUrls(base: string, animeUrl: string, hrefs: seq<Option<string>>) returns (urls: set<string>)
    ensures urls == SeasonUrls(base, animeUrl, hrefs)
  {
    urls := {};
    ghost var f := SeasonLinkUrls(base);
    for i := 0 to |hrefs|
      invariant urls == Gathered(hrefs[..i], f)
    {
      assert hrefs[..i + 1][..i] == hrefs[..i];
      var href := hrefs[i];
      assert f(href) == SeasonLinkUrl(base, href);
      if !Truthy(href) {
        assert Gathered(hrefs[..i], f) + {} == Gathered(hrefs[..i], f);
        continue;
      }
      if IsSeasonHref(href.value) {
        var url := DetailUrl(base, href.value);
        if EndsWithSeasonNumber(url) {
          urls := urls + {url};
        }
      }
    }
    assert hrefs[..|hrefs|] == hrefs;
    if urls == {} {
      urls := {animeUrl};
    }
  }

  // ---------------------------------------------------------------- episodes of one season

  /** The season and episode digits of an href, when it matches and belongs to the season being scraped (or there is one season only). */
  function Pick(href: string, seasonNum: string, single: bool): (r: Option<(string, string)>)
    ensures r.Some? ==> r.value.1 != [] && AllDigits(r.value.1)
    ensures r.Some? ==> ParseEpisodeHref(href) == r && (single || r.value.0 == seasonNum)
    ensures ParseEpisodeHref(href).Some? && (single || ParseEpisodeHref(href).value.0 == seasonNum)
            ==> r == ParseEpisodeHref(href)
  {
    match ParseEpisodeHref(href)
    case None => None
    case Some(groups) => if groups.0 == seasonNum || single then Some(groups) else None
  }

  /** The episode each eligible href gives, in page order, with repeats. */
  function EpisodeCandidates(base: string, hrefs: seq<Option<string>>, seasonNum: string, single: bool): (r: seq<Episode>)
    ensures forall j :: 0 <= j < |r| ==> r[j].number != [] && AllDigits(r[j].number)
    ensures !single ==> forall j :: 0 <= j < |r| ==> r[j].season == seasonNum
  {
    if hrefs == [] then []
    else
      var before := EpisodeCandidates(base, hrefs[..|hrefs| - 1], seasonNum, single);
      var last := hrefs[|hrefs| - 1];
      if last.None? then before
      else
        match Pick(last.value, seasonNum, single)
        case None => before
        case Some(groups) => before + [Episode(groups.0, groups.1, DetailUrl(base, last.value))]
  }

  function NumberOf(e: Episode): string
  {
    e.number
  }

  /**
   * The episodes of one season page in page order, the first for each number, or `None`
   * when an href is missing: `re.search` on a missing href raises and the season is dropped.
   */
  function SelectEpisodes(base: string, hrefs: seq<Option<string>>, seasonNum: string, single: bool): Option<seq<Episode>>
  {
    if forall k :: 0 <= k < |hrefs| ==> hrefs[k].Some? then
      Some(FirstByKey(EpisodeCandidates(base, hrefs, seasonNum, single), NumberOf))
    else None
  }

  /** The selected episodes carry distinct numbers, and, unless the anime has one season only, the season being scraped. */
  lemma SelectedEpisodesDistinctAndInSeason(base: string, hrefs: seq<Option<string>>, seasonNum: string, single: bool)
    requires SelectEpisodes(base, hrefs, seasonNum, single).Some?
    ensures var eps := SelectEpisodes(base, hrefs, seasonNum, single).value;
            && (forall i, j :: 0 <= i < j < |eps| ==> eps[i].number != eps[j].number)
            && (!single ==> forall j :: 0 <= j < |eps| ==> eps[j].season == seasonNum)
            && (forall j :: 0 <= j < |eps| ==> eps[j].number != [] && AllDigits(eps[j].number))
  {
    var candidates := EpisodeCandidates(base, hrefs, seasonNum, single);
    FirstByKeyDistinct(candidates, NumberOf);
    KeptPositionsPick(candidates, NumberOf);
  }

  /** Every number an eligible href carries is among the selected episodes. */
  lemma {:induction false} EveryEligibleNumberIsSelected(base: string, hrefs: seq<Option<string>>, seasonNum: string, single: bool, k: nat)
    requires SelectEpisodes(base, hrefs, seasonNum, single).Some?
    requires k < |hrefs| && Pick(hrefs[k].value, seasonNum, single).Some?
    ensures Pick(hrefs[k].value, seasonNum, single).value.1 in Keys(SelectEpisodes(base, hrefs, seasonNum, single).value, NumberOf)
  {
    var candidates := EpisodeCandidates(base, hrefs, seasonNum, single);
    CandidateOfEligibleHref(base, hrefs, seasonNum, single, k);
    FirstByKeyKeepsEveryKey(candidates, NumberOf);
  }

  lemma {:induction false} CandidateOfEligibleHref(base: string, hrefs: seq<Option<string>>, seasonNum: string, single: bool, k: nat)
    requires k < |hrefs| && hrefs[k].Some? && Pick(hrefs[k].value, seasonNum, single).Some?
    ensures Pick(hrefs[k].value, seasonNum, single).value.1 in Keys(EpisodeCandidates(base, hrefs, seasonNum, single), NumberOf)
  {
    var n := |hrefs|;
    var prefix := hrefs[..n - 1];
    var before := EpisodeCandidates(base, prefix, seasonNum, single);
    var groups := Pick(hrefs[k].value, seasonNum, single).value;
    if k < n - 1 {
      assert prefix[k] == hrefs[k];
      CandidateOfEligibleHref(base, prefix, seasonNum, single, k);
      var i :| 0 <= i < |before| && NumberOf(before[i]) == groups.1;
      assert EpisodeCandidates(base, hrefs, seasonNum, single)[i] == before[i];
    } else {
      var e := Episode(groups.0, groups.1, DetailUrl(base, hrefs[k].value));
      assert EpisodeCandidates(base, hrefs, seasonNum, single) == before + [e];
      assert NumberOf((before + [e])[|before|]) == groups.1;
    }
  }

  /** One more href in the `seen_eps` loop: what the kept episodes and the seen numbers become. */
  lemma SelectStep(base: string, hrefs: seq<Option<string>>, seasonNum: string, single: bool, i: nat)
    requires i < |hrefs| && hrefs[i].Some?
    ensures var before := EpisodeCandidates(base, hrefs[..i], seasonNum, single);
            var after := EpisodeCandidates(base, hrefs[..i + 1], seasonNum, single);
            var p := Pick(hrefs[i].value, seasonNum, single);
            && (p.None? || p.value.1 in Keys(before, NumberOf) ==>
                  FirstByKey(after, NumberOf) == FirstByKey(before, NumberOf) && Keys(after, NumberOf) == Keys(before, NumberOf))
            && (p.Some? && p.value.1 !in Keys(before, NumberOf) ==>
                  && FirstByKey(after, NumberOf) == FirstByKey(before, NumberOf) + [Episode(p.value.0, p.value.1, DetailUrl(base, hrefs[i].value))]
                  && Keys(after, NumberOf) == Keys(before, NumberOf) + {p.value.1})
  {
    assert hrefs[..i + 1][..i] == hrefs[..i];
    var before := EpisodeCandidates(base, hrefs[..i], seasonNum, single);
    var p := Pick(hrefs[i].value, seasonNum, single);
    if p.None? {
      assert before + [] == before;
    } else {
      var found := Episode(p.value.0, p.value.1, DetailUrl(base, hrefs[i].value));
      assert EpisodeCandidates(base, hrefs[..i + 1], seasonNum, single) == before + [found];
      FirstByKeyStep(before, found, NumberOf);
      if p.value.1 in Keys(before, NumberOf) {
        assert FirstByKey(before, NumberOf) + [] == FirstByKey(before, NumberOf);
      }
    }
  }

  /**
   * The loop over one season page's episode links with its `seen_eps` set; a missing href
   * makes `re.search` raise, which abandons the season.
   */
  method ScrapeSeasonEpisodes(base: string, hrefs: seq<Option<string>>, seasonNum: string, single: bool)
    returns (episodes: Option<seq<Episode>>)
    ensures episodes == SelectEpisodes(base, hrefs, seasonNum, single)
  {
    var current: seq<Episode> := [];
    var seen: set<string> := {};
    for i := 0 to |hrefs|
      invariant None !in hrefs[..i]
      invariant current == FirstByKey(EpisodeCandidates(base, hrefs[..i], seasonNum, single), NumberOf)
      invariant seen == Keys(EpisodeCandidates(base, hrefs[..i], seasonNum, single), NumberOf)
    {
      var href := hrefs[i];
      assert hrefs[..i + 1] == hrefs[..i] + [href];
      if href.None? {
        return None;
      }
      SelectStep(base, hrefs, seasonNum, single, i);
      var picked := Pick(href.value, seasonNum, single);
      if picked.Some? && picked.value.1 !in seen {
        current := current + [Episode(picked.value.0, picked.value.1, DetailUrl(base, href.value))];
        seen := seen + {picked.value.1};
      }
    }
    assert hrefs[..|hrefs|] == hrefs;
    episodes := Some(current);
  }

  // ---------------------------------------------------------------- sorting by episode number

  /** `int(s)` for a string of decimal digits, which is all an episode number can be. */
  function DecimalValue(s: string): int
  {
    if s == [] then 0 else DecimalValue(s[..|s| - 1]) * 10 + (s[|s| - 1] as int - '0' as int)
  }

  function Key(e: Episode): int
  {
    DecimalValue(e.number)
  }

  predicate SortedByNumber(eps: seq<Episode>)
  {
    forall i, j :: 0 <= i < j < |eps| ==> Key(eps[i]) <= Key(eps[j])
  }

  /** `e` placed after every episode whose number is not greater. */
  function InsertByNumber(e: Episode, eps: seq<Episode>): (r: seq<Episode>)
    ensures multiset(r) == multiset(eps) + multiset{e}
  {
    if eps == [] then [e]
    else if Key(e) < Key(eps[0]) then [e] + eps
    else
      assert eps == [eps[0]] + eps[1..];
      [eps[0]] + InsertByNumber(e, eps[1..])
  }

  predicate AllAtLeast(eps: seq<Episode>, bound: int)
  {
    forall j :: 0 <= j < |eps| ==> bound <= Key(eps[j])
  }

  lemma {:induction false} InsertByNumberAtLeast(e: Episode, eps: seq<Episode>, bound: int)
    requires bound <= Key(e) && AllAtLeast(eps, bound)
    ensures AllAtLeast(InsertByNumber(e, eps), bound)
  {
    if eps != [] && Key(eps[0]) <= Key(e) {
      var rest := InsertByNumber(e, eps[1..]);
      InsertByNumberAtLeast(e, eps[1..], bound);
      var r := [eps[0]] + rest;
      assert forall j :: 1 <= j < |r| ==> r[j] == rest[j - 1];
    }
  }

  lemma {:induction false} InsertByNumberKeepsSorted(e: Episode, eps: seq<Episode>)
    requires SortedByNumber(eps)
    ensures SortedByNumber(InsertByNumber(e, eps))
  {
    if eps != [] && Key(eps[0]) <= Key(e) {
      var rest := InsertByNumber(e, eps[1..]);
      InsertByNumberKeepsSorted(e, eps[1..]);
      InsertByNumberAtLeast(e, eps[1..], Key(eps[0]));
      var r := [eps[0]] + rest;
      assert forall j :: 1 <= j < |r| ==> r[j] == rest[j - 1];
    }
  }

  /** `sorted(eps, key=lambda x: int(x['number']))`: the same episodes, ordered by number. */
  function SortByNumber(eps: seq<Episode>): (r: seq<Episode>)
    ensures multiset(r) == multiset(eps)
    ensures SortedByNumber(r)
  {
    if eps == [] then []
    else
      var prefix := eps[..|eps| - 1];
      assert eps == prefix + [eps[|eps| - 1]];
      InsertByNumberKeepsSorted(eps[|eps| - 1], SortByNumber(prefix));
      InsertByNumber(eps[|eps| - 1], SortByNumber(prefix))
  }

  // ---------------------------------------------------------------- the seasons

  /** What one visited season URL contributes: nothing when loading or parsing failed or no episode was kept. */
  function SeasonEntry(base: string, url: string, single: bool, page: SeasonPage): (r: Option<Season>)
    ensures r.Some? ==> r.value.seasonNumber == SeasonNumber(url) && r.value.episodes != []
    ensures r.Some? ==> SortedByNumber(r.value.episodes)
    ensures r.Some? <==> && page.Loaded?
                         && SelectEpisodes(base, page.hrefs, SeasonNumber(url), single).Some?
                         && SelectEpisodes(base, page.hrefs, SeasonNumber(url), single).value != []
    ensures r.Some? ==> multiset(r.value.episodes) == multiset(SelectEpisodes(base, page.hrefs, SeasonNumber(url), single).value)
  {
    match page
    case LoadFailed(_) => None
    case Loaded(hrefs) =>
      var num := SeasonNumber(url);
      match SelectEpisodes(base, hrefs, num, single)
      case None => None
      case Some(eps) =>
        if eps == [] then None
        else
          var sorted := SortByNumber(eps);
          assert |sorted| == |eps| by { assert |multiset(sorted)| == |multiset(eps)|; }
          Some(Season(num, sorted))
  }

  /** The seasons the entries of `urls` contribute, in the order of `urls`. */
  function Listed(urls: seq<string>, entry: string -> Option<Season>): seq<Season>
  {
    if urls == [] then []
    else
      var last := entry(urls[|urls| - 1]);
      Listed(urls[..|urls| - 1], entry) + (if last.Some? then [last.value] else [])
  }

  /** The entry of each season URL, given how the visits go. */
  function Entries(base: string, single: bool, visit: string -> SeasonPage): string -> Option<Season>
  {
    url => SeasonEntry(base, url, single, visit(url))
  }

  /** The seasons of the URLs visited in this order. */
  function SeasonsData(base: string, urls: seq<string>, single: bool, visit: string -> SeasonPage): seq<Season>
  {
    Listed(urls, Entries(base, single, visit))
  }

  lemma {:induction false} ListedAppend(a: seq<string>, b: seq<string>, entry: string -> Option<Season>)
    ensures Listed(a + b, entry) == Listed(a, entry) + Listed(b, entry)
  {
    if b == [] {
      assert a + b == a;
    } else {
      var b' := b[..|b| - 1];
      ListedAppend(a, b', entry);
      assert (a + b)[..|a + b| - 1] == a + b';
    }
  }

  /** Seasons are scraped independently: a season that fails drops out without touching the others. */
  lemma SeasonsDataAppend(base: string, a: seq<string>, b: seq<string>, single: bool, visit: string -> SeasonPage)
    ensures SeasonsData(base, a + b, single, visit) == SeasonsData(base, a, single, visit) + SeasonsData(base, b, single, visit)
  {
    ListedAppend(a, b, Entries(base, single, visit));
  }

  /** Every season listed has a non-empty list of episodes sorted by number. */
  lemma {:induction false} SeasonsDataAreSortedAndNonEmpty(base: string, urls: seq<string>, single: bool, visit: string -> SeasonPage)
    ensures forall s :: s in SeasonsData(base, urls, single, visit) ==> s.episodes != [] && SortedByNumber(s.episodes)
  {
    if urls != [] {
      var last := urls[|urls| - 1];
      SeasonsDataAreSortedAndNonEmpty(base, urls[..|urls| - 1], single, visit);
      assert Entries(base, single, visit)(last) == SeasonEntry(base, last, single, visit(last));
    }
  }

  /** The `try` block for one season URL: load the page, read its number, select and sort its episodes. */
  method ScrapeSeason(base: string, url: string, single: bool, page: SeasonPage) returns (entry: Option<Season>)
    ensures entry == SeasonEntry(base, url, single, page)
  {
    if page.LoadFailed? {
      return None;
    }
    var num := SeasonNumber(url);
    var episodes := ScrapeSeasonEpisodes(base, page.hrefs, num, single);
    if episodes.None? || episodes.value == [] {
      return None;
    }
    entry := Some(Season(num, SortByNumber(episodes.value)));
  }

  /** The loop over the sorted season URLs: each season's `try` block, its season appended when it yields one. */
  method ScrapeSeasons(base: string, ordered: seq<string>, single: bool, visit: string -> SeasonPage)
    returns (seasons: seq<Season>)
    ensures seasons == SeasonsData(base, ordered, single, visit)
  {
    seasons := [];
    ghost var entries := Entries(base, single, visit);
    for i := 0 to |ordered|
      invariant seasons == Listed(ordered[..i], entries)
    {
      assert ordered[..i + 1][..i] == ordered[..i];
      var entry := ScrapeSeason(base, ordered[i], single, visit(ordered[i]));
      assert entries(ordered[i]) == entry;
      if entry.Some? {
        seasons := seasons + [entry.value];
      } else {
        assert seasons + [] == seasons;
      }
    }
    assert ordered[..|ordered|] == ordered;
  }

  /**
   * `get_anime_details` after the page has been read: the season URLs are collected, visited
   * in sorted order, and each visit that yields episodes adds one season.
   */
  method GetAnimeDetails(animeUrl: string, title: string, hrefs: seq<Option<string>>, visit: string -> SeasonPage)
    returns (details: AnimeDetails)
    ensures details.title == title && details.url == animeUrl
    ensures var urls := SeasonUrls(BaseUrl, animeUrl, hrefs);
            details.seasons == SeasonsData(BaseUrl, SortedSet(urls), |urls| == 1, visit)
  {
    var seasonUrls := CollectSeasonUrls(BaseUrl, animeUrl, hrefs);
    var seasons := ScrapeSeasons(BaseUrl, SortedSet(seasonUrls), |seasonUrls| == 1, visit);
    details := AnimeDetails(title, animeUrl, seasons);
  }
}
