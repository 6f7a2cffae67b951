/**
 * The registry of tasks and the background job that downloads every episode of a title:
 * submission, status lookup, and `scrape_all_episodes_task` with its batch loop.
 */
module Tasks {
  import opened Models
  import opened Episodes

  datatype TaskStatus = Pending | Processing | Completed | TaskFailed

  /** The dict kept per task; a key the job has not written yet is `None`. */
  datatype TaskRecord = TaskRecord(
    id: string,
    status: TaskStatus,
    animeUrl: string,
    animeTitle: Option<string>,
    totalEpisodes: Option<nat>,
    processed: Option<nat>,
    results: Option<seq<EpisodeResult>>,
    error: Option<string>)

  /** What the details scraper gave for the title page: the details, or the text of the exception it raised. */
  datatype DetailsOutcome = Scraped(details: AnimeDetails) | ScrapeRaised(message: string)

  datatype HttpError = HttpError(statusCode: nat, detail: string)

  /** The answer of the status endpoint: the stored record, or a 404. */
  datatype Lookup = Found(record: TaskRecord) | NotFound(error: HttpError)

  datatype SubmitResponse = SubmitResponse(taskId: string, message: string)

  /** How many episodes one `asyncio.gather` call covers. */
  const BatchSize: nat := 5

  /** The reply text of the submit endpoint; `{task_id}` is literal text there, not a placeholder. */
  const SubmitMessage: string := "Scraping started in background. Check status with /status/{task_id}"

  /** The record a submission stores. */
  function NewTask(taskId: string, animeUrl: string): TaskRecord
  {
    TaskRecord(taskId, Pending, animeUrl, None, None, None, None, None)
  }

  /** Progress is visible only together with its results, and never runs past the total. */
  predicate Consistent(r: TaskRecord)
  {
    && (r.processed.Some? <==> r.results.Some?)
    && (r.processed.Some? ==>
          && r.processed.value == |r.results.value|
          && r.totalEpisodes.Some? && r.processed.value <= r.totalEpisodes.value)
  }

  /** `all_episodes`: the episodes of every season, seasons in order. */
  function Flatten(seasons: seq<Season>): seq<Episode>
  {
    if seasons == [] then [] else Flatten(seasons[..|seasons| - 1]) + seasons[|seasons| - 1].episodes
  }

  /** Where season `j`'s episodes start in the flattened list. */
  function Offset(seasons: seq<Season>, j: nat): nat
    requires j <= |seasons|
  {
    if j == 0 then 0 else Offset(seasons, j - 1) + |seasons[j - 1].episodes|
  }

  lemma {:induction false} FlattenAppend(a: seq<Season>, b: seq<Season>)
    ensures Flatten(a + b) == Flatten(a) + Flatten(b)
  {
    if b != [] {
      assert (a + b)[..|a + b| - 1] == a + b[..|b| - 1];
      FlattenAppend(a, b[..|b| - 1]);
    } else {
      assert a + b == a;
    }
  }

  /** The flattened list is as long as all seasons together. */
  lemma {:induction false} FlattenLength(seasons: seq<Season>, j: nat)
    requires j <= |seasons|
    ensures |Flatten(seasons[..j])| == Offset(seasons, j)
  {
    if j > 0 {
      FlattenLength(seasons, j - 1);
      assert seasons[..j][..j - 1] == seasons[..j - 1];
    }
  }

  /** Episode `e` of season `j` sits at position `Offset(j) + e` of the flattened list. */
  lemma {:induction false} FlattenIndex(seasons: seq<Season>, j: nat, e: nat)
    requires j < |seasons| && e < |seasons[j].episodes|
    ensures Offset(seasons, j) + e < |Flatten(seasons)|
    ensures Flatten(seasons)[Offset(seasons, j) + e] == seasons[j].episodes[e]
  {
    FlattenAppend(seasons[..j + 1], seasons[j + 1..]);
    assert seasons[..j + 1] + seasons[j + 1..] == seasons;
    assert seasons[..j + 1][..j] == seasons[..j];
    FlattenLength(seasons, j);
  }

  /** The nested loop that builds `all_episodes`. */
  method FlattenEpisodes(seasons: seq<Season>) returns (all: seq<Episode>)
    ensures all == Flatten(seasons)
  {
    all := [];
    for s := 0 to |seasons|
      invariant all == Flatten(seasons[..s])
    {
      var episodes := seasons[s].episodes;
      for e := 0 to |episodes|
        invariant all == Flatten(seasons[..s]) + episodes[..e]
      {
        all := all + [episodes[e]];
      }
      assert episodes[..|episodes|] == episodes;
      assert seasons[..s + 1][..s] == seasons[..s];
    }
    assert seasons[..|seasons|] == seasons;
  }

  /**
   * `asyncio.gather` over one batch. With a semaphore of one the episodes run one at a time,
   * and the results come back in the order of the batch.
   */
  function ProcessBatch(title: string, batch: seq<Episode>, resolve: string -> Resolution,
                        download: (string, string) -> bool): seq<EpisodeResult>
  {
    seq(|batch|, k requires 0 <= k < |batch| => ProcessEpisode(title, batch[k], resolve, download))
  }

  lemma ProcessBatchAppend(title: string, a: seq<Episode>, b: seq<Episode>, resolve: string -> Resolution,
                           download: (string, string) -> bool)
    ensures ProcessBatch(title, a + b, resolve, download)
         == ProcessBatch(title, a, resolve, download) + ProcessBatch(title, b, resolve, download)
  {
  }

  /** How many results carry `status`. */
  function CountStatus(results: seq<EpisodeResult>, status: EpisodeStatus): nat
  {
    if results == [] then 0
    else CountStatus(results[..|results| - 1], status) + (if results[|results| - 1].status == status then 1 else 0)
  }

  /** How many episodes the resolver answers with an exception. */
  function CountRaised(episodes: seq<Episode>, resolve: string -> Resolution): nat
  {
    if episodes == [] then 0
    else CountRaised(episodes[..|episodes| - 1], resolve) + (if resolve(episodes[|episodes| - 1].url).Raised? then 1 else 0)
  }

  /** How many episodes the resolver answers with no URL (`None` or empty). */
  function CountMissing(episodes: seq<Episode>, resolve: string -> Resolution): nat
  {
    if episodes == [] then 0
    else
      var r := resolve(episodes[|episodes| - 1].url);
      CountMissing(episodes[..|episodes| - 1], resolve) + (if r.Resolved? && !Truthy(r.videoUrl) then 1 else 0)
  }

  lemma ProcessBatchLast(title: string, episodes: seq<Episode>, resolve: string -> Resolution,
                         download: (string, string) -> bool)
    requires episodes != []
    ensures var results := ProcessBatch(title, episodes, resolve, download);
      && results[..|results| - 1] == ProcessBatch(title, episodes[..|episodes| - 1], resolve, download)
      && results[|results| - 1] == ProcessEpisode(title, episodes[|episodes| - 1], resolve, download)
  {
  }

  /** One exception from the resolver makes exactly one `error` record, and nothing else does. */
  lemma {:induction false} ErrorsAreRaises(title: string, episodes: seq<Episode>, resolve: string -> Resolution,
                                           download: (string, string) -> bool)
    ensures CountStatus(ProcessBatch(title, episodes, resolve, download), Error) == CountRaised(episodes, resolve)
  {
    if episodes != [] {
      ProcessBatchLast(title, episodes, resolve, download);
      ErrorsAreRaises(title, episodes[..|episodes| - 1], resolve, download);
    }
  }

  /** Each episode the resolver finds no URL for makes exactly one `failed` record, and nothing else does. */
  lemma {:induction false} FailuresAreMisses(title: string, episodes: seq<Episode>, resolve: string -> Resolution,
                                             download: (string, string) -> bool)
    ensures CountStatus(ProcessBatch(title, episodes, resolve, download), Failed) == CountMissing(episodes, resolve)
  {
    if episodes != [] {
      ProcessBatchLast(title, episodes, resolve, download);
      FailuresAreMisses(title, episodes[..|episodes| - 1], resolve, download);
    }
  }

  /** The four statuses account for every record. */
  lemma {:induction false} StatusesPartitionResults(results: seq<EpisodeResult>)
    ensures CountStatus(results, Downloaded) + CountStatus(results, DownloadFailed)
          + CountStatus(results, Failed) + CountStatus(results, Error) == |results|
  {
    if results != [] {
      StatusesPartitionResults(results[..|results| - 1]);
    }
  }

  /** The values `processed` takes after the batches that start at `i`, for `n` episodes. */
  function Marks(i: nat, n: nat): seq<nat>
    decreases n - i
  {
    if i >= n then [] else [BatchEnd(i, n)] + Marks(i + BatchSize, n)
  }

  /** `i + 5`, cut at the end of the list: where the batch that starts at `i` stops. */
  function BatchEnd(i: nat, n: nat): nat
  {
    if i + BatchSize <= n then i + BatchSize else n
  }

  /** Every value `processed` takes during a job of `n` episodes: 0, then one value per batch. */
  function Checkpoints(n: nat): seq<nat>
  {
    [0] + Marks(0, n)
  }

  lemma {:induction false} MarksBounds(i: nat, n: nat)
    ensures i < n ==> |Marks(i, n)| > 0 && Marks(i, n)[|Marks(i, n)| - 1] == n
    ensures forall k :: 0 <= k < |Marks(i, n)| ==> i < Marks(i, n)[k] <= n
    decreases n - i
  {
    if i < n {
      MarksBounds(i + BatchSize, n);
      var m := Marks(i, n);
      var rest := Marks(i + BatchSize, n);
      assert forall k :: 1 <= k < |m| ==> m[k] == rest[k - 1];
    }
  }

  lemma {:induction false} MarksSteps(i: nat, n: nat)
    ensures i < n ==> Marks(i, n)[0] - i <= BatchSize && (|Marks(i, n)| > 1 ==> Marks(i, n)[0] - i == BatchSize)
    ensures forall k :: 0 < k < |Marks(i, n)| ==> Marks(i, n)[k - 1] < Marks(i, n)[k]
    ensures forall k :: 0 < k < |Marks(i, n)| ==> Marks(i, n)[k] - Marks(i, n)[k - 1] <= BatchSize
    ensures forall k :: 0 < k < |Marks(i, n)| - 1 ==> Marks(i, n)[k] - Marks(i, n)[k - 1] == BatchSize
    decreases n - i
  {
    if i < n {
      MarksSteps(i + BatchSize, n);
      var m := Marks(i, n);
      var rest := Marks(i + BatchSize, n);
      assert m[0] == if i + BatchSize <= n then i + BatchSize else n;
      assert |m| > 1 ==> i + BatchSize < n;
      assert forall k :: 1 <= k < |m| ==> m[k] == rest[k - 1];
    }
  }

  /**
   * `processed` starts at 0, grows by exactly one batch of 5 at each step but the last,
   * by at most 5 at the last, and ends at the total.
   */
  lemma CheckpointsShape(n: nat)
    ensures |Checkpoints(n)| > 0 && Checkpoints(n)[0] == 0 && Checkpoints(n)[|Checkpoints(n)| - 1] == n
    ensures forall k :: 0 < k < |Checkpoints(n)| ==> Checkpoints(n)[k - 1] < Checkpoints(n)[k]
    ensures forall k :: 0 < k < |Checkpoints(n)| ==> Checkpoints(n)[k] - Checkpoints(n)[k - 1] <= BatchSize
    ensures forall k :: 0 < k < |Checkpoints(n)| - 1 ==> Checkpoints(n)[k] - Checkpoints(n)[k - 1] == BatchSize
  {
    MarksBounds(0, n);
    MarksSteps(0, n);
    var c := Checkpoints(n);
    var m := Marks(0, n);
    assert forall k :: 0 < k < |c| ==> c[k] == m[k - 1];
  }

  /** Every record sits under its own id and is consistent. */
  predicate WellFormed(tasks: map<string, TaskRecord>)
  {
    forall id :: id in tasks ==> tasks[id].id == id && Consistent(tasks[id])
  }

  /**
   * The record a job leaves once the details arrived: the normalised title, every episode
   * processed in order, and `completed`, or `failed` with the error when the snapshot write raised.
   */
  predicate FinishedRecord(before: TaskRecord, after: TaskRecord, details: AnimeDetails, resolve: string -> Resolution,
                           download: (string, string) -> bool, snapshotError: Option<string>)
  {
    var all := Flatten(details.seasons);
    var title := NormalizeTitle(details.title);
    && after.id == before.id && after.animeUrl == before.animeUrl
    && after.animeTitle == Some(title)
    && after.totalEpisodes == Some(|all|) && after.processed == Some(|all|)
    && after.results == Some(ProcessBatch(title, all, resolve, download))
    && (snapshotError.None? ==> after.status == Completed && after.error == before.error)
    && (snapshotError.Some? ==> after.status == TaskFailed && after.error == snapshotError)
  }

  /** Appending to the log in two steps is appending the two parts at once. */
  lemma AppendAssoc(a: seq<TaskRecord>, b: seq<TaskRecord>, c: seq<TaskRecord>)
    ensures a + b + c == a + (b + c)
  {
  }

  /** Writing a key twice leaves the second value. */
  lemma OverwriteKey(m: map<string, TaskRecord>, k: string, first: TaskRecord, second: TaskRecord)
    ensures m[k := first][k := second] == m[k := second]
  {
  }

  /** The record once the batches up to `m` are in: `processed == m` and the results of the first `m` episodes. */
  function Progressed(base: TaskRecord, title: string, all: seq<Episode>, m: nat, resolve: string -> Resolution,
                      download: (string, string) -> bool): TaskRecord
    requires m <= |all|
  {
    base.(processed := Some(m), results := Some(ProcessBatch(title, all[..m], resolve, download)))
  }

  /** The records the batch loop writes, one per batch, for the batches that start at `i` or later. */
  function BatchRecords(base: TaskRecord, title: string, all: seq<Episode>, i: nat, resolve: string -> Resolution,
                        download: (string, string) -> bool): seq<TaskRecord>
    decreases |all| - i
  {
    if i >= |all| then []
    else [Progressed(base, title, all, BatchEnd(i, |all|), resolve, download)]
         + BatchRecords(base, title, all, i + BatchSize, resolve, download)
  }

  /** The record once the job has written the title and opened the counters: the total, 0 and `[]`. */
  function Counting(before: TaskRecord, title: string, all: seq<Episode>): TaskRecord
  {
    before.(animeTitle := Some(title), totalEpisodes := Some(|all|), processed := Some(0), results := Some([]))
  }

  /** The records written after the batches: `completed`, then `failed` when the snapshot write raised. */
  function Closing(before: TaskRecord, title: string, all: seq<Episode>, resolve: string -> Resolution,
                   download: (string, string) -> bool, snapshotError: Option<string>): seq<TaskRecord>
  {
    var done := Progressed(Counting(before, title, all), title, all, |all|, resolve, download).(status := Completed);
    if snapshotError.Some? then [done, done.(status := TaskFailed, error := snapshotError)] else [done]
  }

  /**
   * The records `scrape_all_episodes_task` writes once the details arrived, for the normalised
   * `title` and the flattened episodes `all`: the title, the opened counters, one record per
   * batch, and the closing records.
   */
  function DownloadTrace(before: TaskRecord, title: string, all: seq<Episode>, resolve: string -> Resolution,
                         download: (string, string) -> bool, snapshotError: Option<string>): seq<TaskRecord>
  {
    [before.(animeTitle := Some(title)), Counting(before, title, all)]
    + BatchRecords(Counting(before, title, all), title, all, 0, resolve, download)
    + Closing(before, title, all, resolve, download, snapshotError)
  }

  /** Every record the job writes under its id, in order, starting from the record `before` it ran. */
  function JobTrace(before: TaskRecord, outcome: DetailsOutcome, resolve: string -> Resolution,
                    download: (string, string) -> bool, snapshotError: Option<string>): seq<TaskRecord>
  {
    var started := before.(status := Processing);
    match outcome
    case ScrapeRaised(message) => [started, started.(status := TaskFailed, error := Some(message))]
    case Scraped(details) =>
      [started] + DownloadTrace(started, NormalizeTitle(details.title), Flatten(details.seasons), resolve, download, snapshotError)
  }

  /** One pass of the batch loop: the results so far grow by the batch's, and one record is written. */
  lemma BatchStep(base: TaskRecord, title: string, all: seq<Episode>, i: nat, resolve: string -> Resolution,
                  download: (string, string) -> bool)
    requires i < |all|
    ensures var end := BatchEnd(i, |all|);
            && ProcessBatch(title, all[..i], resolve, download) + ProcessBatch(title, all[i..end], resolve, download)
               == ProcessBatch(title, all[..end], resolve, download)
            && BatchRecords(base, title, all, i, resolve, download)
               == [Progressed(base, title, all, end, resolve, download)] + BatchRecords(base, title, all, end, resolve, download)
  {
    var end := BatchEnd(i, |all|);
    ProcessBatchAppend(title, all[..i], all[i..end], resolve, download);
    assert all[..i] + all[i..end] == all[..end];
  }

  /** The batch records carry exactly the marks of `range(0, n, 5)` as `processed`, with the results up to each. */
  lemma {:induction false} BatchRecordsFollowMarks(base: TaskRecord, title: string, all: seq<Episode>, i: nat,
                                                   resolve: string -> Resolution, download: (string, string) -> bool)
    ensures |BatchRecords(base, title, all, i, resolve, download)| == |Marks(i, |all|)|
    ensures forall k :: 0 <= k < |Marks(i, |all|)| ==>
              && Marks(i, |all|)[k] <= |all|
              && BatchRecords(base, title, all, i, resolve, download)[k]
                 == Progressed(base, title, all, Marks(i, |all|)[k], resolve, download)
    decreases |all| - i
  {
    MarksBounds(i, |all|);
    if i < |all| {
      BatchRecordsFollowMarks(base, title, all, i + BatchSize, resolve, download);
      var m := Marks(i, |all|);
      var r := BatchRecords(base, title, all, i, resolve, download);
      assert forall k :: 1 <= k < |m| ==> m[k] == Marks(i + BatchSize, |all|)[k - 1];
      assert forall k :: 1 <= k < |r| ==> r[k] == BatchRecords(base, title, all, i + BatchSize, resolve, download)[k - 1];
    }
  }

  /** The closing records: all hold every result, the first is `completed`, only the last can be `failed`. */
  lemma ClosingShape(before: TaskRecord, title: string, all: seq<Episode>, resolve: string -> Resolution,
                     download: (string, string) -> bool, snapshotError: Option<string>)
    ensures var c := Closing(before, title, all, resolve, download, snapshotError);
            && |c| == (if snapshotError.Some? then 2 else 1)
            && c[0] == Counting(before, title, all).(processed := Some(|all|),
                         results := Some(ProcessBatch(title, all, resolve, download)), status := Completed)
            && (snapshotError.Some? ==> c[1] == c[0].(status := TaskFailed, error := snapshotError))
  {
    assert all[..|all|] == all;
  }

  /**
   * The records written once the details arrived, by checkpoint: after the title, one record per
   * value of `processed`, each with the results up to it, then the closing records.
   */
  lemma DownloadTraceProgress(before: TaskRecord, title: string, all: seq<Episode>, resolve: string -> Resolution,
                              download: (string, string) -> bool, snapshotError: Option<string>)
    ensures var d := DownloadTrace(before, title, all, resolve, download, snapshotError);
            var c := Checkpoints(|all|);
            var closing := Closing(before, title, all, resolve, download, snapshotError);
            && |d| == 1 + |c| + |closing|
            && d[0] == before.(animeTitle := Some(title))
            && (forall k :: 0 <= k < |c| ==>
                  c[k] <= |all| && d[1 + k] == Progressed(Counting(before, title, all), title, all, c[k], resolve, download))
            && (forall j :: 0 <= j < |closing| ==> d[1 + |c| + j] == closing[j])
  {
    var d := DownloadTrace(before, title, all, resolve, download, snapshotError);
    var c := Checkpoints(|all|);
    var counting := Counting(before, title, all);
    var batches := BatchRecords(counting, title, all, 0, resolve, download);
    var closing := Closing(before, title, all, resolve, download, snapshotError);
    assert d == [before.(animeTitle := Some(title)), counting] + batches + closing;
    BatchRecordsFollowMarks(counting, title, all, 0, resolve, download);
    assert Progressed(counting, title, all, 0, resolve, download) == counting by {
      assert all[..0] == [] && ProcessBatch(title, all[..0], resolve, download) == [];
    }
    forall k | 0 <= k < |c|
      ensures c[k] <= |all| && d[1 + k] == Progressed(counting, title, all, c[k], resolve, download)
    {
      if k > 0 {
        assert c[k] == Marks(0, |all|)[k - 1];
        assert d[2 + (k - 1)] == batches[k - 1];
      }
    }
    forall j | 0 <= j < |closing|
      ensures d[1 + |c| + j] == closing[j]
    {
      assert d[2 + |batches| + j] == closing[j];
    }
  }

  /**
   * Every record written once the details arrived keeps the id, the URL and the status it started
   * from, except the closing `completed` records, which hold every episode, and a final `failed`;
   * each is consistent when the starting record was.
   */
  lemma DownloadTraceEntries(before: TaskRecord, title: string, all: seq<Episode>, resolve: string -> Resolution,
                             download: (string, string) -> bool, snapshotError: Option<string>)
    ensures var d := DownloadTrace(before, title, all, resolve, download, snapshotError);
            && |d| >= 2
            && (d[|d| - 1].status == Completed || d[|d| - 1].status == TaskFailed)
            && forall k :: 0 <= k < |d| ==>
                 && d[k].id == before.id && d[k].animeUrl == before.animeUrl
                 && (|| d[k].status == before.status
                     || (d[k].status == Completed && d[k].processed == Some(|all|))
                     || (k == |d| - 1 && d[k].status == TaskFailed))
                 && (Consistent(before) ==> Consistent(d[k]))
  {
    var d := DownloadTrace(before, title, all, resolve, download, snapshotError);
    var c := Checkpoints(|all|);
    var counting := Counting(before, title, all);
    var closing := Closing(before, title, all, resolve, download, snapshotError);
    DownloadTraceProgress(before, title, all, resolve, download, snapshotError);
    ClosingShape(before, title, all, resolve, download, snapshotError);
    assert d[|d| - 1] == closing[|closing| - 1] by {
      assert d[1 + |c| + (|closing| - 1)] == closing[|closing| - 1];
    }
    forall k | 0 <= k < |d|
      ensures d[k].id == before.id && d[k].animeUrl == before.animeUrl
      ensures || d[k].status == before.status
              || (d[k].status == Completed && d[k].processed == Some(|all|))
              || (k == |d| - 1 && d[k].status == TaskFailed)
      ensures Consistent(before) ==> Consistent(d[k])
    {
      if 1 <= k < 1 + |c| {
        var m := c[k - 1];
        assert d[1 + (k - 1)] == Progressed(counting, title, all, m, resolve, download) && m <= |all|;
      } else if k >= 1 + |c| {
        var j := k - 1 - |c|;
        assert d[1 + |c| + j] == closing[j];
        if j == 1 {
          assert k == |d| - 1;
        }
      }
    }
  }

  /**
   * Over a whole job: it first marks the record `processing`, every record it writes keeps the
   * id and the URL, only the last one can be `failed`, a `completed` one has every episode
   * processed, and a consistent record stays consistent at every write.
   */
  lemma JobTraceLifecycle(before: TaskRecord, outcome: DetailsOutcome, resolve: string -> Resolution,
                          download: (string, string) -> bool, snapshotError: Option<string>)
    ensures var t := JobTrace(before, outcome, resolve, download, snapshotError);
            && |t| >= 2 && t[0] == before.(status := Processing)
            && (t[|t| - 1].status == Completed || t[|t| - 1].status == TaskFailed)
            && (forall k :: 0 <= k < |t| ==> t[k].id == before.id && t[k].animeUrl == before.animeUrl)
            && (forall k :: 0 <= k < |t| - 1 ==> t[k].status == Processing || t[k].status == Completed)
            && (forall k :: 0 <= k < |t| && t[k].status == Completed ==>
                  outcome.Scraped? && t[k].processed == Some(|Flatten(outcome.details.seasons)|))
            && (Consistent(before) ==> forall k :: 0 <= k < |t| ==> Consistent(t[k]))
  {
    var t := JobTrace(before, outcome, resolve, download, snapshotError);
    if outcome.Scraped? {
      var started := before.(status := Processing);
      var title := NormalizeTitle(outcome.details.title);
      var all := Flatten(outcome.details.seasons);
      var d := DownloadTrace(started, title, all, resolve, download, snapshotError);
      assert t == [started] + d;
      DownloadTraceEntries(started, title, all, resolve, download, snapshotError);
      forall k | 1 <= k < |t|
        ensures t[k] == d[k - 1]
      {
      }
    }
  }

  /**
   * The progress a job whose details arrived writes: after the title, `processed` runs through
   * the checkpoints 0, 5, 10, ... up to the total, each time with the results of exactly that many
   * episodes in order, and stays at the total afterwards.
   */
  lemma JobTraceProgress(before: TaskRecord, details: AnimeDetails, resolve: string -> Resolution,
                         download: (string, string) -> bool, snapshotError: Option<string>)
    ensures var t := JobTrace(before, Scraped(details), resolve, download, snapshotError);
            var all := Flatten(details.seasons);
            var c := Checkpoints(|all|);
            && |t| == 3 + |c| + (if snapshotError.Some? then 1 else 0)
            && t[0].processed == before.processed && t[1].processed == before.processed
            && (forall k :: 0 <= k < |c| ==>
                  && c[k] <= |all|
                  && t[2 + k].status == Processing && t[2 + k].totalEpisodes == Some(|all|)
                  && t[2 + k].processed == Some(c[k])
                  && t[2 + k].results == Some(ProcessBatch(NormalizeTitle(details.title), all[..c[k]], resolve, download)))
            && (forall k :: 2 + |c| <= k < |t| ==>
                  && t[k].processed == Some(|all|)
                  && t[k].results == Some(ProcessBatch(NormalizeTitle(details.title), all, resolve, download)))
  {
    var t := JobTrace(before, Scraped(details), resolve, download, snapshotError);
    var started := before.(status := Processing);
    var title := NormalizeTitle(details.title);
    var all := Flatten(details.seasons);
    var c := Checkpoints(|all|);
    var closing := Closing(started, title, all, resolve, download, snapshotError);
    var d := DownloadTrace(started, title, all, resolve, download, snapshotError);
    assert t == [started] + d;
    DownloadTraceProgress(started, title, all, resolve, download, snapshotError);
    ClosingShape(started, title, all, resolve, download, snapshotError);
    assert t[1] == d[0];
    forall k | 2 <= k < 2 + |c|
      ensures t[k] == d[k - 1]
    {
    }
    forall k | 2 + |c| <= k < |t|
      ensures t[k] == closing[k - 2 - |c|]
    {
      assert t[k] == d[1 + |c| + (k - 2 - |c|)];
    }
  }

  /**
   * How a job ends: a failed details fetch leaves `failed` with the exception's text and nothing
   * else touched; otherwise the record is the finished one.
   */
  lemma JobTraceOutcome(before: TaskRecord, outcome: DetailsOutcome, resolve: string -> Resolution,
                        download: (string, string) -> bool, snapshotError: Option<string>)
    ensures var t := JobTrace(before, outcome, resolve, download, snapshotError);
            && |t| >= 2
            && (outcome.ScrapeRaised? ==>
                  |t| == 2 && t[1] == before.(status := TaskFailed, error := Some(outcome.message)))
            && (outcome.Scraped? ==>
                  FinishedRecord(before, t[|t| - 1], outcome.details, resolve, download, snapshotError))
  {
    if outcome.Scraped? {
      var started := before.(status := Processing);
      var title := NormalizeTitle(outcome.details.title);
      var all := Flatten(outcome.details.seasons);
      var t := JobTrace(before, outcome, resolve, download, snapshotError);
      var d := DownloadTrace(started, title, all, resolve, download, snapshotError);
      var closing := Closing(started, title, all, resolve, download, snapshotError);
      assert t == [started] + d;
      DownloadTraceProgress(started, title, all, resolve, download, snapshotError);
      ClosingShape(started, title, all, resolve, download, snapshotError);
      assert t[|t| - 1] == d[|d| - 1] == closing[|closing| - 1];
    }
  }

  class TaskStore {
    /** The registry: task id to task record. */
    var tasks: map<string, TaskRecord>
    /**
     * Every record value written into the registry, in the order of the writes. A reader of the
     * registry runs only while the job waits, so what it sees is some of these, never anything else.
     */
    ghost var log: seq<TaskRecord>

    ghost predicate Valid()
      reads this
    {
      WellFormed(tasks)
    }

    /** The registry starts empty. */
    constructor ()
      ensures Valid() && tasks == map[] && log == []
    {
      tasks := map[];
      log := [];
    }

    /** `start_download_all`: store a pending record under the fresh id and hand the id back. */
    method StartDownloadAll(taskId: string, animeUrl: string) returns (response: SubmitResponse)
      requires Valid()
      requires taskId !in tasks
      modifies this
      ensures Valid()
      ensures tasks == old(tasks)[taskId := NewTask(taskId, animeUrl)]
      ensures log == old(log) + [NewTask(taskId, animeUrl)]
      ensures response == SubmitResponse(taskId, SubmitMessage)
    {
      tasks := tasks[taskId := NewTask(taskId, animeUrl)];
      log := log + [tasks[taskId]];
      response := SubmitResponse(taskId, SubmitMessage);
    }

    /** `get_task_status`: the stored record itself, or a 404 for an unknown id. */
    function GetTaskStatus(taskId: string): (r: Lookup)
      reads this
      ensures r.Found? <==> taskId in tasks
      ensures r.Found? ==> r.record == tasks[taskId]
      ensures r.NotFound? ==> r.error == HttpError(404, "Task not found")
    {
      if taskId in tasks then Found(tasks[taskId]) else NotFound(HttpError(404, "Task not found"))
    }

    /** `tasks[task_id]["anime_title"] = title` */
    method SetTitle(taskId: string, title: string)
      requires Valid() && taskId in tasks
      modifies this
      ensures Valid()
      ensures tasks == old(tasks)[taskId := old(tasks)[taskId].(animeTitle := Some(title))]
      ensures log == old(log) + [tasks[taskId]]
    {
      tasks := tasks[taskId := tasks[taskId].(animeTitle := Some(title))];
      log := log + [tasks[taskId]];
    }

    /** The three writes that open the progress counters: the total, `processed = 0` and `results = []`. */
    method StartCounting(taskId: string, total: nat)
      requires Valid() && taskId in tasks
      modifies this
      ensures Valid()
      ensures tasks == old(tasks)[taskId := old(tasks)[taskId].(
                totalEpisodes := Some(total), processed := Some(0), results := Some([]))]
      ensures log == old(log) + [tasks[taskId]]
    {
      tasks := tasks[taskId := tasks[taskId].(totalEpisodes := Some(total), processed := Some(0), results := Some([]))];
      log := log + [tasks[taskId]];
    }

    /**
     * `results.extend(results)` and `processed += len(batch)`: no `await` separates the two,
     * so they make one write.
     */
    method AppendBatch(taskId: string, results: seq<EpisodeResult>)
      requires Valid() && taskId in tasks
      requires tasks[taskId].processed.Some? && tasks[taskId].totalEpisodes.Some?
      requires tasks[taskId].processed.value + |results| <= tasks[taskId].totalEpisodes.value
      modifies this
      ensures Valid()
      ensures tasks == old(tasks)[taskId := old(tasks)[taskId].(
                results := Some(old(tasks)[taskId].results.value + results),
                processed := Some(old(tasks)[taskId].processed.value + |results|))]
      ensures log == old(log) + [tasks[taskId]]
    {
      var record := tasks[taskId];
      tasks := tasks[taskId := record.(results := Some(record.results.value + results),
                                       processed := Some(record.processed.value + |results|))];
      log := log + [tasks[taskId]];
    }

    /** `tasks[task_id]["status"] = status` */
    method SetStatus(taskId: string, status: TaskStatus)
      requires Valid() && taskId in tasks
      modifies this
      ensures Valid()
      ensures tasks == old(tasks)[taskId := old(tasks)[taskId].(status := status)]
      ensures log == old(log) + [tasks[taskId]]
    {
      tasks := tasks[taskId := tasks[taskId].(status := status)];
      log := log + [tasks[taskId]];
    }

    /** The `except` block: status `failed` and the exception's text, two writes with no `await` between them. */
    method Fail(taskId: string, message: string)
      requires Valid() && taskId in tasks
      modifies this
      ensures Valid()
      ensures tasks == old(tasks)[taskId := old(tasks)[taskId].(status := TaskFailed, error := Some(message))]
      ensures log == old(log) + [tasks[taskId]]
    {
      tasks := tasks[taskId := tasks[taskId].(status := TaskFailed, error := Some(message))];
      log := log + [tasks[taskId]];
    }

    /** The batch loop: slices of 5 in order, each one's results appended and `processed` raised by its length. */
    method RunBatches(taskId: string, title: string, all: seq<Episode>, resolve: string -> Resolution,
                      download: (string, string) -> bool)
      requires Valid() && taskId in tasks
      requires tasks[taskId].totalEpisodes == Some(|all|)
      requires tasks[taskId].processed == Some(0) && tasks[taskId].results == Some([])
      modifies this
      ensures Valid()
      ensures tasks == old(tasks)[taskId := Progressed(old(tasks)[taskId], title, all, |all|, resolve, download)]
      ensures log == old(log) + BatchRecords(old(tasks)[taskId], title, all, 0, resolve, download)
    {
      ghost var started := tasks[taskId];
      assert all[..0] == [] && ProcessBatch(title, all[..0], resolve, download) == [];
      assert Progressed(started, title, all, 0, resolve, download) == started;
      var i := 0;
      // `range(0, len(all_episodes), 5)`: the next batch starts where the last one ended.
      while i < |all|
        invariant 0 <= i <= |all|
        invariant tasks == old(tasks)[taskId := Progressed(started, title, all, i, resolve, download)]
        invariant log + BatchRecords(started, title, all, i, resolve, download)
               == old(log) + BatchRecords(started, title, all, 0, resolve, download)
      {
        var end := BatchEnd(i, |all|);
        var batch := all[i..end];
        var results := ProcessBatch(title, batch, resolve, download);
        BatchStep(started, title, all, i, resolve, download);
        ghost var next := Progressed(started, title, all, end, resolve, download);
        OverwriteKey(old(tasks), taskId, tasks[taskId], next);
        ghost var before := log;
        AppendBatch(taskId, results);
        assert tasks[taskId] == next;
        assert log + BatchRecords(started, title, all, end, resolve, download)
            == before + BatchRecords(started, title, all, i, resolve, download);
        i := end;
      }
      assert log == old(log) + BatchRecords(started, title, all, 0, resolve, download);
    }

    /**
     * The part of `scrape_all_episodes_task` after the details arrived: title, episode list,
     * counters, the batches, `completed`, and the snapshot that may still fail the job.
     */
    method DownloadAll(taskId: string, details: AnimeDetails, resolve: string -> Resolution,
                       download: (string, string) -> bool, snapshotError: Option<string>)
      requires Valid() && taskId in tasks
      modifies this
      ensures Valid()
      ensures log == old(log) + DownloadTrace(old(tasks)[taskId], NormalizeTitle(details.title), Flatten(details.seasons),
                                              resolve, download, snapshotError)
      ensures |log| > |old(log)| && tasks == old(tasks)[taskId := log[|log| - 1]]
    {
      ghost var record := tasks[taskId];
      var title := NormalizeTitle(details.title);
      SetTitle(taskId, title);
      ghost var titled := record.(animeTitle := Some(title));
      assert log == old(log) + [titled];
      OverwriteKey(old(tasks), taskId, record, titled);
      assert tasks == old(tasks)[taskId := titled];
      var all := FlattenEpisodes(details.seasons);
      StartCounting(taskId, |all|);
      ghost var counting := Counting(record, title, all);
      AppendAssoc(old(log), [titled], [counting]);
      assert log == old(log) + [titled, counting];
      OverwriteKey(old(tasks), taskId, titled, counting);
      assert tasks == old(tasks)[taskId := counting];
      ghost var batches := BatchRecords(counting, title, all, 0, resolve, download);
      RunBatches(taskId, title, all, resolve, download);
      AppendAssoc(old(log), [titled, counting], batches);
      ghost var begun := [titled, counting] + batches;
      ghost var ran := Progressed(counting, title, all, |all|, resolve, download);
      OverwriteKey(old(tasks), taskId, counting, ran);
      assert tasks == old(tasks)[taskId := ran];
      ghost var closing := Closing(record, title, all, resolve, download, snapshotError);
      Finish(taskId, snapshotError);
      AppendAssoc(old(log), begun, closing);
      assert log == old(log) + DownloadTrace(record, title, all, resolve, download, snapshotError);
      OverwriteKey(old(tasks), taskId, ran, closing[|closing| - 1]);
    }

    /**
     * `completed`, then the `downloads_<id>.json` snapshot, whose write can still raise and
     * so fail the job.
     */
    method Finish(taskId: string, snapshotError: Option<string>)
      requires Valid() && taskId in tasks
      modifies this
      ensures Valid()
      ensures var done := old(tasks)[taskId].(status := Completed);
              log == old(log) + (if snapshotError.Some? then [done, done.(status := TaskFailed, error := snapshotError)]
                                 else [done])
      ensures |log| > |old(log)| && tasks == old(tasks)[taskId := log[|log| - 1]]
    {
      ghost var done := tasks[taskId].(status := Completed);
      SetStatus(taskId, Completed);
      OverwriteKey(old(tasks), taskId, old(tasks)[taskId], done);
      if snapshotError.Some? {
        ghost var failed := done.(status := TaskFailed, error := snapshotError);
        Fail(taskId, snapshotError.value);
        OverwriteKey(old(tasks), taskId, done, failed);
      }
    }

    /**
     * `scrape_all_episodes_task`: `processing`, then the details; a failure there fails the job
     * and leaves every counter as it was.
     */
    method ScrapeAllEpisodesTask(taskId: string, outcome: DetailsOutcome, resolve: string -> Resolution,
                                 download: (string, string) -> bool, snapshotError: Option<string>)
      requires Valid()
      requires taskId in tasks
      modifies this
      ensures Valid()
      ensures log == old(log) + JobTrace(old(tasks)[taskId], outcome, resolve, download, snapshotError)
      ensures |log| > |old(log)| && tasks == old(tasks)[taskId := log[|log| - 1]]
      ensures outcome.ScrapeRaised? ==>
                tasks[taskId] == old(tasks)[taskId].(status := TaskFailed, error := Some(outcome.message))
      ensures outcome.Scraped? ==>
                FinishedRecord(old(tasks)[taskId], tasks[taskId], outcome.details, resolve, download, snapshotError)
    {
      ghost var started := tasks[taskId].(status := Processing);
      SetStatus(taskId, Processing);
      assert tasks == old(tasks)[taskId := started];
      match outcome {
        case ScrapeRaised(message) =>
          Fail(taskId, message);
          OverwriteKey(old(tasks), taskId, started, started.(status := TaskFailed, error := Some(message)));
        case Scraped(details) =>
          DownloadAll(taskId, details, resolve, download, snapshotError);
          OverwriteKey(old(tasks), taskId, started, log[|log| - 1]);
          assert log == old(log) + ([started] + DownloadTrace(started, NormalizeTitle(details.title), Flatten(details.seasons),
                                                              resolve, download, snapshotError));
          JobTraceOutcome(old(tasks)[taskId], outcome, resolve, download, snapshotError);
      }
    }
  }
}
