# animecix_scraper: the download pipeline and the link selection, modelled in Dafny

The service searches animecix.tv, lists an anime's seasons and episodes, and downloads
every episode in a background job. This project models the parts of it that decide
things, and proves what they promise:

- **The registry of tasks and the download job** (`services.py`, with its copy in `main.py`).
  A submission stores a `pending` record under a fresh id. A lookup returns the record or
  a 404. `scrape_all_episodes_task` then goes through its steps:
  - it sets `processing` and normalises the title;
  - it flattens the seasons into one episode list;
  - it runs batches of five episodes, each episode through `process_episode`;
  - it sets `completed` and writes the JSON snapshot;
  - any exception turns the status into `failed`.
- **`process_episode`**. It resolves a page to a video URL. It derives the sanitised file
  name and the `data/<title>/Season <n>/<file>` path. It classifies the outcome as
  `downloaded`, `download_failed`, `failed` or `error`.
- **The scraper's selection logic** (`scraper.py`). The browser is replaced by its outputs.
  - `search_anime`: href normalisation and URL de-duplication, first occurrence kept.
  - `get_anime_details`: which links are season URLs (`/season/\d+$`) and the single-season
    fallback. It also covers the sorted visiting order, the season number
    (`/season/(\d+)`, default `"1"`), and episode selection by `/season/(\d+)/episode/(\d+)`.
    Episodes are de-duplicated by number and sorted by `int(number)`. A season that raises
    is dropped on its own.
  - `get_video_source`: the first intercepted `.mp4`/`.m3u8` request wins, else the
    `<video>` `src`.

Modules, one file each:
- `Text`: Python's `strip`, `startswith`, `in` and related helpers.
- `Models`: the records of `models.py`.
- `Sanitize`: `_sanitize_filename` and the inline loop.
- `Paths`: `os.path.join` on POSIX.
- `Episodes`: `process_episode`.
- `Tasks`: the registry class `TaskStore` and the job.
- `Dedup`: keep the first item per key.
- `LexOrder`: Python string order and `sorted` of a set.
- `Patterns`: the regular expressions and the URL building of `get_anime_details`.
- `Search`, `Details` and `Video`: the three scraper methods.

### Collaborators

Everything the code does not decide itself becomes an input:
- The video resolver is a function from a page URL to `Resolved(url or None)` or
  `Raised(message)`.
- The downloader is a function from (video URL, path) to `bool`.
- A season page visit is a function from a URL to the hrefs on the page, or to the error
  loading it raised.
- The outcome of `get_anime_details` inside the job is a value.
- Whether the JSON snapshot write raised is an optional error text.
- `asyncio.gather` under `Semaphore(1)` runs a batch's episodes one at a time and returns
  their results in the order of the batch. `Tasks.ProcessBatch` is defined as that ordered
  list; the ordering is an assumption of the model, not something it proves.

`Tasks.TaskStore` carries a ghost `log`: every record value written into the registry, in
the order of the writes. Each write method appends exactly the record it leaves. The job's
postcondition states its whole sequence of writes as `Tasks.JobTrace`, and the lemmas about
that function state the lifecycle.

### Where the code and the description differ

- **A snapshot failure overrides `completed`.** `completed` is written before the
  `downloads_<id>.json` snapshot (services.py:103-106), inside the same `try`. A failure
  writing the file turns the status into `failed` with the error text, even though every
  episode was processed. The model follows the code: `Tasks.TaskStore.Finish` writes
  `completed` and then `failed` in that case. There is no
  `await` between the two writes, so a concurrent reader never sees `completed` there.
- **The job exists twice.** `main.py:65-160` repeats `services.py:40-110`, with the
  sanitiser written inline (main.py:101-102). One model serves both, and rows cite
  whichever copy states the point.
- **The submit reply has no real placeholder.** Its message is not an f-string, so it
  contains the literal text `{task_id}` (main.py:175). `Tasks.SubmitMessage` keeps it.
- **Title normalisation touches only `/`.** The title goes into the path after only
  `/`→`-` and `strip()`. Other characters that are illegal in file names stay in the
  directory segment, and an empty title makes `os.path.join` skip that segment.
  `Episodes.EpisodePathLayout` states both cases.

## Model

| member | source | states |
|---|---|---|
| Sanitize.SanitizeFilename | services.py:34-37 | the loop deletes the nine characters in turn; the result is `Sanitized(name)` and contains none of `< > : " / \ \| ? *` |
| Sanitize.SanitizedCounts | services.py:34-37 | sanitising deletes every forbidden character and keeps every other character: each other character occurs as often as in the input |
| Sanitize.SanitizedAppend | services.py:34-37 | sanitising works piecewise, `Sanitized(a + b) == Sanitized(a) + Sanitized(b)`, so the kept characters stay in order |
| Sanitize.SanitizedOfClean | services.py:34-37 | a name without forbidden characters is returned unchanged |
| Sanitize.SanitizedIdempotent | services.py:34-37 | sanitising twice is sanitising once |
| Sanitize.Without | main.py:101-102 | the inline loop's result is never longer than the file name and holds none of the deleted characters |
| Text.Strip | services.py:45 | `strip()` result has no whitespace at either end, is no longer than the input, and uses only the input's characters |
| Text.StripIsTheTrimmedInfix | services.py:45 | `strip()` is exactly the infix with whitespace only outside it and none at its ends |
| Episodes.NormalizeTitle | services.py:45 | the stored title contains no `/` and has no surrounding whitespace |
| Episodes.NormalizeTitleIsTrimmedTitle | main.py:70 | apart from `/`→`-`, the title is kept character for character between its first and last non-space characters |
| Episodes.ProcessEpisode | services.py:60-95 | every input gives a record with the episode's season and number; `error` iff the resolver raised (error text = message), `failed` iff it gave no URL (error "Video URL not found"), otherwise a record with series, page URL, video URL, file name and path, `downloaded` iff the downloader returned True |
| Episodes.EpisodeFilenameShape | services.py:71-73 | the file name is the sanitised title, ` - S`, sanitised season, `E`, sanitised number and `.mp4`; it holds no forbidden character and ends in `.mp4` |
| Episodes.EpisodePathLayout | main.py:96-104 | with a `/`-free title the path is `data/<title>/Season <s>/<file>`, or `data/Season <s>/<file>` when the title is empty |
| Episodes.FilenameIsRelative | services.py:73-74 | the file name is never empty and never starts with `/`, so `os.path.join` keeps the directory in front of it |
| Paths.Join | services.py:74 | a component starting with `/` replaces what came before; otherwise the result starts with the left part and ends with the component |
| Paths.JoinSegments | services.py:74 | two plain segments are joined by exactly one `/` |
| Tasks.FlattenEpisodes | services.py:48-51 | the nested loop appends exactly `Flatten(seasons)` |
| Tasks.FlattenLength | services.py:53 | the first `j` seasons flattened hold as many episodes as those seasons together, which is where season `j` starts |
| Tasks.FlattenIndex | main.py:73-76 | episode `e` of season `j` is at position `Offset(j) + e` of `all_episodes` |
| Tasks.FlattenAppend | main.py:73-76 | flattening distributes over concatenation of season lists |
| Tasks.ErrorsAreRaises | services.py:89-95 | the number of `error` records equals the number of episodes whose resolver raised |
| Tasks.FailuresAreMisses | services.py:64-70 | the number of `failed` records equals the number of episodes with no video URL |
| Tasks.StatusesPartitionResults | main.py:110-136 | every record has exactly one of the four statuses |
| Tasks.MarksBounds | services.py:97-101 | the values `processed` takes after each batch stay above the start and within the total, and the last one is the total |
| Tasks.MarksSteps | services.py:97-101 | the values of `processed` strictly grow; consecutive values differ by 5, except the last step, which takes the remainder of at most 5 |
| Tasks.CheckpointsShape | main.py:143-149 | `processed` starts at 0, rises strictly by at most 5 per batch, only the last batch is short, and it ends at the total |
| Tasks.TaskStore.constructor | services.py:12 | the registry starts empty and nothing has been written to it |
| Tasks.TaskStore.StartDownloadAll | main.py:168-175 | stores `{id, status: pending, anime_url}` under the fresh id, leaves every other task alone, logs that record as the one write, and answers with that id and the fixed message |
| Tasks.TaskStore.GetTaskStatus | main.py:178-181 | the stored record, unchanged, iff the id is known; otherwise a 404 "Task not found" |
| Tasks.TaskStore.SetTitle | services.py:46 | stores the title in this task's record, changes nothing else, and logs the new record as one write |
| Tasks.TaskStore.StartCounting | services.py:53-55 | sets the total, `processed = 0` and `results = []` on this task's record only, keeps the registry consistent, and logs the new record as one write |
| Tasks.TaskStore.AppendBatch | services.py:100-101 | extends this task's results by the batch's and raises `processed` by as many, as one write that the log records, and changes nothing else |
| Tasks.TaskStore.SetStatus | services.py:42 | sets this task's status, changes nothing else, and logs the new record as one write |
| Tasks.TaskStore.Fail | services.py:108-110 | sets `failed` and the error text on this task's record, changes nothing else, and logs the new record as one write |
| Tasks.BatchStep | services.py:97-101 | one pass extends the results so far by the batch's to the results of every episode up to the batch's end, and writes the record for that end before the records of the later batches |
| Tasks.BatchRecordsFollowMarks | services.py:97-101 | the batch loop writes one record per value of `range(0, n, 5)`; the `k`-th has `processed` equal to the `k`-th mark and the results of exactly the episodes before it |
| Tasks.TaskStore.RunBatches | services.py:97-101 | after the loop `results` is the per-episode results of all episodes in order and `processed` equals their number; the writes logged are exactly the batch records |
| Tasks.TaskStore.Finish | services.py:103-110 | writes `completed`, then `failed` with the error when the snapshot write raised, and leaves the last of these |
| Tasks.TaskStore.DownloadAll | services.py:44-106 | logs exactly the writes of the job once the details arrived: the title, the opened counters, one record per batch, `completed`, and `failed` when the snapshot write raised; the registry ends with the last of them |
| Tasks.TaskStore.ScrapeAllEpisodesTask | services.py:40-110 | logs exactly `JobTrace` for this task and leaves its last record; a raising details scrape leaves `failed` with the error and every counter as it was; otherwise the record is finished: normalised title, `processed == total == len(results)`, the results of all episodes in order, and `completed`, or `failed` when the snapshot write raised |
| Tasks.ClosingShape | services.py:103-110 | the closing writes hold every result; the first is `completed`, and a second one, only when the snapshot raised, is `failed` with that error |
| Tasks.DownloadTraceProgress | services.py:53-101 | after the title, the writes carry `processed` through `0, 5, 10, ...` up to the total, each with the results of exactly that many episodes, then the closing writes |
| Tasks.DownloadTraceEntries | services.py:44-106 | every write keeps the id and URL and the status the job started with, except the closing `completed`, which has every episode processed, and a final `failed`; all are consistent when the starting record was |
| Tasks.JobTraceLifecycle | services.py:40-110 | the job's first write is `processing`; every write keeps id and URL; only the last can be `failed` and it is `completed` or `failed`; a `completed` write has every episode processed; every write is consistent when the starting record was |
| Tasks.JobTraceProgress | services.py:53-101 | when the details arrive, the writes after the title carry `processed` through exactly the checkpoints of `range(0, n, 5)` and `n`, in `processing` with the total set and the results of exactly that many episodes, and stay at `n` afterwards |
| Tasks.JobTraceOutcome | services.py:40-110 | a raising details scrape makes exactly two writes, the second `failed` with the message; otherwise the last write is the finished record |
| Search.SearchUrlIsAbsolute | scraper.py:45-48 | under the `http` base every result URL starts with `http`, so normalising it again changes nothing |
| Search.DetailUrlAgreesWithSearchUrl | scraper.py:117-119 | the details scraper's normalisation gives the same URL as the search's under an `http` base |
| Search.LinkTitle | scraper.py:54-60 | the title is the stripped text when it is not empty; it is empty iff the text is blank and the link has no image |
| Search.SearchAnime | scraper.py:38-66 | the results are the first result for each URL among the non-empty hrefs, in page order, and no URL repeats |
| Dedup.KeptPositionsPick | scraper.py:50-51 | the kept links are the input's at strictly increasing positions |
| Dedup.KeptPositionsAreFirst | scraper.py:50-51 | every kept item is the first in the input with its key |
| Dedup.FirstByKeyKeepsEveryKey | scraper.py:163-164 | every URL or episode number in the input is present among the kept items |
| Dedup.FirstByKeyDistinct | scraper.py:163-175 | no key occurs twice among the kept items |
| Patterns.SeasonSuffixAccepted | scraper.py:122 | every URL ending in `/season/` and digits, with or without one final newline, passes `/season/\d+$` |
| Patterns.AcceptedSeasonUrlShape | scraper.py:122 | every URL that passes ends in `/season/` and a non-empty digit run, before an optional final newline |
| Patterns.SeasonNumber | scraper.py:141-142 | the season number is a non-empty run of digits |
| Patterns.SeasonNumberIsLeftmostMatch | scraper.py:141-142 | it is the digit run after the leftmost `/season/` followed by a digit |
| Patterns.SeasonNumberDefault | scraper.py:142 | without such a match it is `"1"` |
| Patterns.ParseEpisodeHrefIsLeftmostMatch | scraper.py:155 | the episode groups come from the leftmost match, and there are none without a match |
| Patterns.EpisodeMatchSpells | scraper.py:155-158 | a match spells `/season/<digits>/episode/<digits>` with the two groups as the digit runs |
| Patterns.EpisodeMatchOfSpelling | scraper.py:155-158 | conversely, wherever the href spells `/season/<digits>/episode/<digits>` the pattern matches there with the season as group 1, and with the number as group 2 when no further digit follows |
| Details.AcceptedSeasonUrlsMembership | scraper.py:108-124 | a URL is collected iff some non-empty href containing `season` and not `episode` normalises to it and the URL passes `/season/\d+$` |
| Details.SeasonUrlsAreSeasonPagesOrFallback | scraper.py:127-128 | there is always a season to visit; with no accepted link it is the anime URL alone; every accepted URL ends in `/season/<digits>` |
| Details.CollectSeasonUrls | scraper.py:103-128 | the loop yields the accepted URLs, or the anime URL alone when there are none |
| LexOrder.SortedSet | scraper.py:132 | the seasons are visited once each, in strictly increasing code-point order |
| LexOrder.LessTotal | scraper.py:132 | any two different URLs are ordered one way |
| LexOrder.LessTransitive | scraper.py:132 | the order is transitive |
| LexOrder.LessAsymmetric | scraper.py:132 | the order is asymmetric |
| Details.Pick | scraper.py:155-162 | an href is eligible if and only if it matches and its season is the scraped one or there is one season; the pair picked is the match's groups |
| Details.EpisodeCandidates | scraper.py:160-162 | every candidate has a digit-string number, and the scraped season unless there is one season |
| Details.SelectedEpisodesDistinctAndInSeason | scraper.py:160-175 | kept episodes have distinct numbers, carry the scraped season unless there is one season, and have digit-string numbers |
| Details.EveryEligibleNumberIsSelected | scraper.py:162-175 | every number an eligible href carries is among the kept episodes |
| Details.SelectStep | scraper.py:155-175 | one href: an eligible episode with an unseen number is appended and its number joins `seen_eps`; an ineligible href or a seen number changes neither |
| Details.ScrapeSeasonEpisodes | scraper.py:148-175 | the loop keeps the first eligible episode per number in page order, and gives nothing when an href is missing |
| Details.InsertByNumber | scraper.py:180 | inserting keeps every episode and adds the new one |
| Details.InsertByNumberKeepsSorted | scraper.py:180 | inserting into a list sorted by `int(number)` keeps it sorted |
| Details.SortByNumber | scraper.py:180 | the sorted episodes are a permutation of the input, ordered by `int(number)` |
| Details.SeasonEntry | scraper.py:134-184 | a season is listed if and only if its page loaded and the episode selection is non-empty; it is listed under the number read from its URL, with the selected episodes permuted into sorted order |
| Details.SeasonsDataAppend | scraper.py:132-184 | seasons are scraped independently: the list for a run of URLs is the lists for its parts, so a failing season drops only itself |
| Details.SeasonsDataAreSortedAndNonEmpty | scraper.py:177-181 | every listed season has episodes, sorted by number |
| Details.ScrapeSeason | scraper.py:134-184 | one season's `try` block gives exactly `SeasonEntry` |
| Details.ScrapeSeasons | scraper.py:130-184 | the loop over the sorted season URLs lists exactly the seasons `SeasonEntry` gives, in that order |
| Details.GetAnimeDetails | scraper.py:103-192 | the details carry the title and anime URL, and the seasons of the collected URLs visited in sorted order, with `single` meaning one season URL |
| Video.FirstVideoCandidate | scraper.py:208-214 | the winner is a request URL containing `.mp4` or `.m3u8` |
| Video.FirstVideoCandidateIsLeast | scraper.py:211-214 | the winner is the candidate at the least position, and there is none iff no request is a candidate |
| Video.LaterRequestsAreIgnored | scraper.py:212 | once a candidate has been seen, later requests change nothing |
| Video.GetVideoSource | scraper.py:206-265 | the first candidate is returned; with none, the `<video>` `src` (or None) |

## Left out

- Playwright: page loads, waits, scrolling, clicks, locators and browser lifetime. The model
  takes their outputs as inputs: hrefs, link texts and image attributes, the page title or
  `h1` text, the request URLs seen before the timeout, and the `<video>` `src`.
- The 15-second `asyncio.wait_for` timeout: the requests passed to `Video.GetVideoSource`
  are the ones intercepted before it fired. Clicking the play button only affects which
  requests happen.
- `download_file` (aiohttp, aiofiles, `os.makedirs`): the downloader is a function returning
  `bool`. The model does not say which files exist afterwards.
- The `downloads_<id>.json` snapshot contents: only whether writing it raised is modelled.
- asyncio concurrency (the semaphore, `gather` interleavings, background tasks, readers
  polling the status while the job runs): with a semaphore of one and order-preserving
  `gather`, each batch is sequential. A reader of the registry runs only while the job
  waits, so it sees some of the records in the ghost `log`, which holds every write.
- The resolver, the downloader and the season-page visits are deterministic functions, so
  two visits of the same URL give the same answer. The real site may answer differently.
- FastAPI and uvicorn routing, and the `/search` and `/details` wrappers (main.py:20-41).
  They call the scraper and turn any exception into an HTTP 500 whose detail is the
  exception's text (main.py:28-29, main.py:40-41); that is web-framework plumbing.
- `uuid4`: `Tasks.TaskStore.StartDownloadAll` requires an id not yet in the registry instead.
- `get_tasks_store` (services.py:113-114) returns the same registry object;
  `Tasks.TaskStore` is that object.
- The `details.get("title", "Unknown")` and `get("seasons"/"episodes", [])` defaults:
  `get_anime_details` always supplies these keys, so the defaults are never used.
- The query quoting and search URL of `search_anime` (scraper.py:20-21), which only choose
  the page that is loaded.
- `print` logging.
- Python's `\d` also matches non-ASCII decimal digits. The model accepts `0`-`9` only, and
  `int()` is modelled on those.
- `os.path.join` is modelled on POSIX: Windows drive letters and backslashes are not.
- Details.SortByNumber: proved ordered and a permutation. The stability of Python's sort,
  which orders equal numbers such as `"01"` and `"1"` by page position, is not proved.
- models.py: the pydantic schemas have no behaviour and appear only as the shapes of the
  datatypes.
