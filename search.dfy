/**
 * `search_anime` once the browser is taken away: the `/titles/` links of the result page,
 * in page order, become search results with absolute URLs, each URL kept once.
 */
module Search {
  import opened Text
  import opened Models
  import opened Patterns
  import opened Dedup

  /** The `alt` and `title` attributes of a link's first `<img>`. */
  datatype ImgAttrs = ImgAttrs(alt: Option<string>, title: Option<string>)

  /** One `a[href*='/titles/']` link: its href attribute, its inner text, and its first `<img>` if it has one. */
  datatype SearchLink = SearchLink(href: Option<string>, text: string, img: Option<ImgAttrs>)

  /** The URL `search_anime` builds from an href: `http` hrefs as they are, others under the base. */
  function SearchUrl(base: string, href: string): string
  {
    if !StartsWith(href, "http") then
      (if StartsWith(href, "/") then base + href else base + "/" + href)
    else href
  }

  /** Under an `http` base every result URL is absolute, so normalising it again changes nothing. */
  lemma SearchUrlIsAbsolute(base: string, href: string)
    requires StartsWith(base, "http")
    ensures StartsWith(SearchUrl(base, href), "http")
    ensures SearchUrl(base, SearchUrl(base, href)) == SearchUrl(base, href)
  {
    var url := SearchUrl(base, href);
    assert url[..4] == base[..4] || url == href;
  }

  /** The details scraper normalises hrefs its own way, and under an `http` base it gets the same URL. */
  lemma DetailUrlAgreesWithSearchUrl(base: string, href: string)
    requires StartsWith(base, "http")
    ensures DetailUrl(base, href) == SearchUrl(base, href)
  {
    if StartsWith(href, "/") {
      assert (base + href)[..4] == base[..4];
      assert !StartsWith(href, "http") by { assert href[0] == '/'; }
    }
  }

  /** The title: the stripped link text, else the image's `alt`, else its `title`, else `"Unknown"`. */
  function LinkTitle(link: SearchLink): (title: string)
    ensures title == "" <==> Strip(link.text) == "" && link.img.None?
    ensures Strip(link.text) != "" ==> title == Strip(link.text)
  {
    var text := Strip(link.text);
    if text != "" then text
    else
      match link.img
      case None => text
      case Some(img) =>
        if Truthy(img.alt) then img.alt.value
        else if Truthy(img.title) then img.title.value
        else "Unknown"
  }

  /** The result a link gives when its href is not empty. */
  function Candidates(base: string, links: seq<SearchLink>): seq<SearchResult>
  {
    if links == [] then []
    else
      var link := links[|links| - 1];
      Candidates(base, links[..|links| - 1])
        + (if Truthy(link.href) then [SearchResult(LinkTitle(link), SearchUrl(base, link.href.value))] else [])
  }

  function UrlOf(r: SearchResult): string
  {
    r.url
  }

  /**
   * The link loop of `search_anime`: links with an empty href are skipped, the rest are made
   * absolute, and a URL already seen is skipped.
   */
  method SearchAnime(links: seq<SearchLink>) returns (results: seq<SearchResult>)
    ensures results == FirstByKey(Candidates(BaseUrl, links), UrlOf)
    ensures forall i, j :: 0 <= i < j < |results| ==> results[i].url != results[j].url
  {
    var base := BaseUrl;
    results := [];
    var seen: set<string> := {};
    for i := 0 to |links|
      invariant results == FirstByKey(Candidates(base, links[..i]), UrlOf)
      invariant seen == Keys(Candidates(base, links[..i]), UrlOf)
    {
      assert links[..i + 1][..i] == links[..i];
      var link := links[i];
      var before := Candidates(base, links[..i]);
      if !Truthy(link.href) {
        assert before + [] == before;
        assert Candidates(base, links[..i + 1]) == before;
        continue;
      }
      var url := SearchUrl(base, link.href.value);
      var found := SearchResult(LinkTitle(link), url);
      assert Candidates(base, links[..i + 1]) == before + [found];
      FirstByKeyStep(before, found, UrlOf);
      if url in seen {
        continue;
      }
      results := results + [found];
      seen := seen + {url};
    }
    assert links[..|links|] == links;
    FirstByKeyDistinct(Candidates(base, links), UrlOf);
  }
}
