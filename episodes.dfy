/**
 * One unit of download work (`process_episode`): resolve an episode page to a video URL,
 * derive where the file goes, download it, and turn every outcome into a result record.
 */
module Episodes {
  import opened Text
  import opened Models
  import opened Sanitize
  import opened Paths

  /** What the video resolver gave for one page: a URL or nothing, or the text of the exception it raised. */
  datatype Resolution = Resolved(videoUrl: Option<string>) | Raised(message: string)

  datatype EpisodeStatus = Downloaded | DownloadFailed | Failed | Error

  /**
   * The record `process_episode` returns. A found URL gives an `Attempted` record whatever the
   * download did; no URL or an exception gives an `Unresolved` record with an error text.
   */
  datatype EpisodeResult =
    | Attempted(series: string, season: string, episode: string, pageUrl: string,
                videoUrl: string, filename: string, localPath: string, status: EpisodeStatus)
    | Unresolved(season: string, episode: string, error: string, status: EpisodeStatus)

  const StorageRoot: string := "data"
  const NotFoundMessage: string := "Video URL not found"

  /** The directory segment for a title: every `/` becomes `-`, then surrounding whitespace goes. */
  function NormalizeTitle(title: string): (r: string)
    ensures forall k :: 0 <= k < |r| ==> r[k] != '/'
    ensures r != [] ==> !IsSpace(r[0]) && !IsSpace(r[|r| - 1])
  {
    Strip(ReplaceChar(title, '/', '-'))
  }

  /** Apart from `/`, the directory segment is the title with its surrounding whitespace cut off, character for character. */
  lemma NormalizeTitleIsTrimmedTitle(title: string, i: nat, j: nat)
    requires i <= j <= |title|
    requires forall k :: 0 <= k < i ==> IsSpace(title[k])
    requires forall k :: j <= k < |title| ==> IsSpace(title[k])
    requires i < j ==> !IsSpace(title[i]) && !IsSpace(title[j - 1])
    ensures NormalizeTitle(title) == ReplaceChar(title[i..j], '/', '-')
  {
    var replaced := ReplaceChar(title, '/', '-');
    assert !IsSpace('-') && !IsSpace('/');
    StripIsTheTrimmedInfix(replaced, i, j);
    assert replaced[i..j] == ReplaceChar(title[i..j], '/', '-');
  }

  function SeasonDir(season: string): string
  {
    "Season " + season
  }

  /** The file name before sanitising: `<title> - S<season>E<number>.mp4`. */
  function RawFilename(title: string, ep: Episode): string
  {
    title + " - S" + ep.season + "E" + ep.number + ".mp4"
  }

  function EpisodeFilename(title: string, ep: Episode): string
  {
    Sanitized(RawFilename(title, ep))
  }

  /** `os.path.join("data", title, "Season <season>", filename)` */
  function EpisodePath(title: string, ep: Episode): string
  {
    Join(Join(Join(StorageRoot, title), SeasonDir(ep.season)), EpisodeFilename(title, ep))
  }

  /**
   * `process_episode`: the resolver is asked for the episode's page URL; an exception becomes an
   * `error` record, an empty answer a `failed` one, and a URL is downloaded to the episode's path.
   * It never fails: every input gives a record, and the record names the episode it is about.
   */
  function ProcessEpisode(title: string, ep: Episode, resolve: string -> Resolution,
                          download: (string, string) -> bool): (r: EpisodeResult)
    ensures r.season == ep.season && r.episode == ep.number
    ensures r.status == Error <==> resolve(ep.url).Raised?
    ensures r.status == Failed <==> resolve(ep.url).Resolved? && !Truthy(resolve(ep.url).videoUrl)
    ensures r.Attempted? <==> resolve(ep.url).Resolved? && Truthy(resolve(ep.url).videoUrl)
    ensures r.Attempted? ==>
      && r.series == title && r.pageUrl == ep.url
      && r.videoUrl == resolve(ep.url).videoUrl.value
      && r.filename == EpisodeFilename(title, ep) && r.localPath == EpisodePath(title, ep)
      && r.status == (if download(r.videoUrl, r.localPath) then Downloaded else DownloadFailed)
    ensures r.Unresolved? ==>
      r.error == if resolve(ep.url).Raised? then resolve(ep.url).message else NotFoundMessage
  {
    match resolve(ep.url)
    case Raised(message) => Unresolved(ep.season, ep.number, message, Error)
    case Resolved(videoUrl) =>
      if !Truthy(videoUrl) then
        Unresolved(ep.season, ep.number, NotFoundMessage, Failed)
      else
        var filename := EpisodeFilename(title, ep);
        var path := EpisodePath(title, ep);
        var status := if download(videoUrl.value, path) then Downloaded else DownloadFailed;
        Attempted(title, ep.season, ep.number, ep.url, videoUrl.value, filename, path, status)
  }

  /** Sanitising `a + b` for a `b` free of the nine characters sanitises `a` alone. */
  lemma SanitizedThenClean(a: string, b: string)
    requires forall k :: 0 <= k < |b| ==> b[k] !in Forbidden
    ensures Sanitized(a + b) == Sanitized(a) + b
  {
    SanitizedAppend(a, b);
    SanitizedOfClean(b);
  }

  /** The file name is built from the sanitised parts, carries none of the nine characters and ends in `.mp4`. */
  lemma EpisodeFilenameShape(title: string, ep: Episode)
    ensures EpisodeFilename(title, ep)
         == Sanitized(title) + " - S" + Sanitized(ep.season) + "E" + Sanitized(ep.number) + ".mp4"
    ensures forall k :: 0 <= k < |EpisodeFilename(title, ep)| ==> EpisodeFilename(title, ep)[k] !in Forbidden
    ensures EndsWith(EpisodeFilename(title, ep), ".mp4")
  {
    var a1 := title + " - S";
    var a2 := a1 + ep.season;
    var a3 := a2 + "E";
    var a4 := a3 + ep.number;
    var a5 := a4 + ".mp4";
    assert a5 == RawFilename(title, ep);
    SanitizedThenClean(title, " - S");
    SanitizedAppend(a1, ep.season);
    SanitizedThenClean(a2, "E");
    SanitizedAppend(a3, ep.number);
    SanitizedThenClean(a4, ".mp4");
    var f := Sanitized(a5);
    assert f[|f| - 4..] == ".mp4";
  }

  lemma FilenameIsRelative(title: string, ep: Episode)
    ensures EpisodeFilename(title, ep) != [] && EpisodeFilename(title, ep)[0] != '/'
  {
    var file := EpisodeFilename(title, ep);
    EpisodeFilenameShape(title, ep);
    assert EndsWith(file, ".mp4");
    assert file[0] !in Forbidden;
  }

  /**
   * The downloaded file sits at `data/<title>/Season <season>/<filename>`; an empty title
   * collapses to `data/Season <season>/<filename>`, as `os.path.join` skips it.
   */
  lemma EpisodePathLayout(title: string, ep: Episode)
    requires forall k :: 0 <= k < |title| ==> title[k] != '/'
    requires ep.season == [] || ep.season[|ep.season| - 1] != '/'
    ensures EpisodePath(title, ep)
         == if title == [] then StorageRoot + "/" + SeasonDir(ep.season) + "/" + EpisodeFilename(title, ep)
            else StorageRoot + "/" + title + "/" + SeasonDir(ep.season) + "/" + EpisodeFilename(title, ep)
  {
    var dir := SeasonDir(ep.season);
    var file := EpisodeFilename(title, ep);
    FilenameIsRelative(title, ep);
    assert dir[|dir| - 1] != '/';
    if title != [] {
      JoinSegments(StorageRoot, title);
      var root := StorageRoot + "/" + title;
      assert root[|root| - 1] == title[|title| - 1];
      JoinSegments(root, dir);
      JoinSegments(root + "/" + dir, file);
    } else {
      // `os.path.join("data", "")` is `"data/"`, after which no second separator is added.
      assert !StartsWith(title, "/");
      var root := StorageRoot + "/";
      assert Join(StorageRoot, title) == root;
      assert !StartsWith(dir, "/") && EndsWith(root, "/");
      assert Join(root, dir) == StorageRoot + "/" + dir;
      JoinSegments(StorageRoot + "/" + dir, file);
    }
  }
}
