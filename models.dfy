/** The records the scraper hands to the download pipeline: the shapes of models.py. */
module Models {

  datatype Option<+T> = None | Some(value: T)

  /** Python truthiness of an optional string: present and not empty. */
  predicate Truthy(o: Option<string>)
  {
    o.Some? && o.value != ""
  }

  /** One episode page: season and episode number as the digit strings read off its URL. */
  datatype Episode = Episode(season: string, number: string, url: string)

  datatype Season = Season(seasonNumber: string, episodes: seq<Episode>)

  /** What `get_anime_details` returns. */
  datatype AnimeDetails = AnimeDetails(title: string, url: string, seasons: seq<Season>)

  /** One entry of what `search_anime` returns. */
  datatype SearchResult = SearchResult(title: string, url: string)
}
