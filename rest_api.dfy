/** The dataset REST handlers over the WordPress stores they read and write:
    post meta, users' download histories, transients (the stats cache) and the
    Action Scheduler queue. Nonce checks, attachment URLs, REST routes, the HTTP
    fetch of the legacy archive, permalinks, titles, the clock and the success
    of each store write are inputs. */
module RestApi {
  import opened Wrappers
  import opened Decimal
  import opened PhpValues
  import opened Calendar
  import opened LegacyEndpoint
  import opened UsageLog

  const DownloadAttachmentKey := "_download_attachment_id"
  const CachedUrlKey := "dataset_download_url"
  const DownloadNonceAction := "prc_platform_dataset_download"
  const RestNonceAction := "WP_REST"
  const StatsCachePrefix := "dataset_downloads_"
  const DayInSeconds := 86400
  const FirstLoggedYear := 2020

  /** The `WP_Error`s the handlers return, with their error codes. */
  datatype Error =
    | InvalidNonce(status: int)        // invalid_nonce
    | NoUid                            // no_uid
    | NoId                             // no_id
    | NoDatasetId                      // no_dataset_id
    | FailedToGetFileUrl               // datasets/failed-to-get-file-url
    | ArchiveUnavailable               // datasets/failed-to-get-original-dataset-from-archive
    | ArchiveMediaMissing              // datasets/failed-to-get-original-dataset-media-from-archive
    | CouldNotIncrementTotal           // datasets/could-not-increment-total
    | CouldNotLogMonthly               // datasets/could-not-log-monthly
    | UserDataError(code: string, status: int)

  /** The HTTP status each error carries. */
  function ErrorStatus(e: Error): int {
    match e
    case InvalidNonce(status) => status
    case NoUid => 400
    case NoId => 400
    case NoDatasetId => 400
    case UserDataError(_, status) => status
    case _ => 500
  }

  /** The parts of a REST request the handlers use: the nonce (body key `NONCE`
      for get-download, header `X-WP-Nonce` for log-download), the body's `uid`
      and the `dataset_id` parameter. */
  datatype Request = Request(nonce: Option<string>, uid: Option<string>, datasetId: Option<int>)

  /** `! $id`: the parameter is absent or 0. */
  predicate MissingId(id: Option<int>) {
    id.None? || id.value == 0
  }

  /** The legacy archive's answer: a transport error, or the decoded JSON body's
      `dataset_download_url` (None when the key is absent or null). */
  datatype ArchiveResponse = TransportError | Decoded(downloadUrl: Option<string>)

  /** What the handlers ask of WordPress and the network, as functions of their
      arguments, and the clock. */
  datatype Env = Env(
    verifyNonce: (Option<string>, string) -> bool,
    attachmentUrl: int -> Option<string>,
    routeForPost: int -> string,
    fetch: string -> ArchiveResponse,
    permalink: int -> string,
    title: int -> string,
    clock: Clock)

  /** Whether each store write succeeds, and the error `User_Data` returns when
      reading or patching a user's data fails. */
  datatype Backend = Backend(totalSaved: bool, monthlySaved: bool,
                             userRead: Option<Error>, userPatch: Option<Error>)

  /** Result of one logging step: `true` or a `WP_Error`. */
  datatype StepResult = Logged | Failed(error: Error)

  /** The `log-download` response: each step's result under its own field. */
  datatype LogReport = LogReport(total: StepResult, monthly: StepResult, uid: StepResult)

  /** The download statistics of a dataset: its total and, per year, the stored
      month map (or whatever the year's meta holds, `''` when nothing). */
  datatype Stats = Stats(total: int, log: map<int, MetaValue>)

  datatype CachedStats = CachedStats(value: Stats, expiresAt: int)

  /** External calls and logging steps, in the order they happen. */
  datatype Event =
    | ArchiveRequested(endpoint: string)
    | TotalLogged(datasetId: int)
    | MonthlyLogged(datasetId: int)
    | UserLogged(uid: string, datasetId: int)

  function LogEvents(uid: string, id: int): seq<Event> {
    [TotalLogged(id), MonthlyLogged(id), UserLogged(uid, id)]
  }

  type MetaStore = map<(int, string), MetaValue>

  function MetaOf(meta: MetaStore, id: int, key: string): MetaValue {
    if (id, key) in meta then meta[(id, key)] else Missing
  }

  function HistoryOf(histories: map<string, History>, uid: string): History {
    if uid in histories then histories[uid] else NoHistory
  }

  /** Where a download is served from, in order of precedence. */
  datatype Source = Attachment(url: string) | CachedUrl | Archive

  /** The archive response as the handler's result. */
  function ArchiveResult(response: ArchiveResponse): (r: Result<string, Error>)
    ensures response.TransportError? ==> r == Err(ArchiveUnavailable)
    ensures response.Decoded? && (response.downloadUrl.None? || EmptyString(response.downloadUrl.value))
            ==> r == Err(ArchiveMediaMissing)
    ensures r.Ok? ==> response.Decoded? && response.downloadUrl == Some(r.value) && !EmptyString(r.value)
    ensures response.Decoded? && response.downloadUrl.Some? && !EmptyString(response.downloadUrl.value)
            ==> r == Ok(response.downloadUrl.value)
  {
    match response
    case TransportError => Err(ArchiveUnavailable)
    case Decoded(url) =>
      if url.None? || EmptyString(url.value) then Err(ArchiveMediaMissing) else Ok(url.value)
  }

  /** Post meta after `increment_download_total`. */
  function AfterTotal(meta: MetaStore, id: int, saved: bool): MetaStore {
    if saved then meta[(id, TotalKey) := Count(NextTotal(MetaOf(meta, id, TotalKey)))] else meta
  }

  /** Post meta after `log_monthly_download_count`. */
  function AfterMonthly(meta: MetaStore, id: int, clock: Clock, saved: bool): MetaStore {
    var key := YearKey(clock.year);
    if saved then meta[(id, key) := Months(BumpMonth(MetaOf(meta, id, key), clock.month))] else meta
  }

  /** Users' histories after `log_dataset_to_user`. */
  function AfterUser(histories: map<string, History>, uid: string, id: int, env: Env, backend: Backend)
    : map<string, History>
  {
    if backend.userRead.None? && backend.userPatch.None? then
      histories[uid := RecordDownload(HistoryOf(histories, uid), id, env.clock.mysqlNow, env.permalink(id), env.title(id))]
    else histories
  }

  function UserStepResult(backend: Backend): StepResult {
    if backend.userRead.Some? then Failed(backend.userRead.value)
    else if backend.userPatch.Some? then Failed(backend.userPatch.value)
    else Logged
  }

  /** The years `range(2020, $current_year)` yields, in its order (counting down
      when the current year is before 2020). */
  function PhpRange(from: int, to: int): (r: seq<int>)
    ensures |r| > 0 && r[0] == from && r[|r| - 1] == to
    ensures forall i :: 0 <= i < |r| ==> r[i] == if from <= to then from + i else from - i
  {
    if from <= to then seq(to - from + 1, i => from + i) else seq(from - to + 1, i => from - i)
  }

  /** `$to_return['log'][$year] = get_post_meta(...)` for each year of the
      list in turn: every listed year maps to its stored meta. */
  function LogOver(meta: MetaStore, id: int, years: seq<int>): (log: map<int, MetaValue>)
    ensures forall y :: y in log <==> y in years
    ensures forall y :: y in log ==> log[y] == MetaOf(meta, id, YearKey(y))
  {
    if years == [] then map[]
    else
      var last := years[|years| - 1];
      assert years == years[..|years| - 1] + [last];
      LogOver(meta, id, years[..|years| - 1])[last := MetaOf(meta, id, YearKey(last))]
  }

  /** The stats a cache miss assembles: the total cast to int and, for each
      year from 2020 to the current UTC year, that year's stored value. */
  lemma LogOverStep(meta: MetaStore, id: int, years: seq<int>, i: int)
    requires 0 <= i < |years|
    ensures LogOver(meta, id, years[..i + 1])
            == LogOver(meta, id, years[..i])[years[i] := MetaOf(meta, id, YearKey(years[i]))]
  {
    assert years[..i + 1][..i] == years[..i];
  }

  /** Two stores that agree on a dataset's year keys give it the same log. */
  lemma {:induction false} LogOverAgree(m1: MetaStore, id1: int, m2: MetaStore, id2: int, years: seq<int>)
    requires forall y :: y in years ==> MetaOf(m1, id1, YearKey(y)) == MetaOf(m2, id2, YearKey(y))
    ensures LogOver(m1, id1, years) == LogOver(m2, id2, years)
    decreases |years|
  {
    if years != [] {
      LogOverAgree(m1, id1, m2, id2, years[..|years| - 1]);
    }
  }

  function StatsOf(meta: MetaStore, id: int, utcYear: int): Stats {
    Stats(IntVal(MetaOf(meta, id, TotalKey)), LogOver(meta, id, PhpRange(FirstLoggedYear, utcYear)))
  }

  function StatsCacheKey(id: int): string {
    StatsCachePrefix + IntToString(id)
  }

  class DatasetsApi {
    var meta: MetaStore
    var histories: map<string, History>
    var transients: map<string, CachedStats>
    var queue: seq<Action>
    ghost var trace: seq<Event>

    ghost predicate Valid()
      reads this
    {
      UniqueActions(queue)
    }

    constructor (meta0: MetaStore, histories0: map<string, History>)
      ensures Valid()
      ensures meta == meta0 && histories == histories0
      ensures transients == map[] && queue == [] && trace == []
    {
      meta, histories := meta0, histories0;
      transients, queue := map[], [];
      trace := [];
    }

    function Meta(id: int, key: string): MetaValue
      reads this
    {
      MetaOf(meta, id, key)
    }

    /** The archive URL for a dataset, from its origin-site and origin-post meta. */
    function ArchiveEndpointFor(id: int, env: Env): string
      reads this
    {
      ArchiveEndpoint(NumericOrNull(Meta(id, OriginalBlogIdKey)), id,
                      NumericOrNull(Meta(id, OriginalPostIdKey)), env.routeForPost(id))
    }

    /** The first source that yields a URL: the attachment, else the cached
      legacy URL (refused), else the archive. */
    function SourceFor(id: int, env: Env): (source: Source)
      reads this
      ensures var attachment := Meta(id, DownloadAttachmentKey);
              source.Attachment? <==> Truthy(attachment) && env.attachmentUrl(IntVal(attachment)).Some?
                                      && !EmptyString(env.attachmentUrl(IntVal(attachment)).value)
      ensures source.Attachment? ==> !EmptyString(source.url)
                                     && env.attachmentUrl(IntVal(Meta(id, DownloadAttachmentKey))) == Some(source.url)
      ensures !source.Attachment? ==> (source == CachedUrl <==> Truthy(Meta(id, CachedUrlKey)))
    {
      var attachment := Meta(id, DownloadAttachmentKey);
      var fileUrl := if Truthy(attachment) then env.attachmentUrl(IntVal(attachment)) else None;
      if fileUrl.Some? && !EmptyString(fileUrl.value) then Attachment(fileUrl.value)
      else if Truthy(Meta(id, CachedUrlKey)) then CachedUrl
      else Archive
    }

    /** `attempt_download_from_archive`. */
    method AttemptDownloadFromArchive(id: int, env: Env) returns (r: Result<string, Error>)
      requires Valid()
      modifies this`queue, this`trace
      ensures Valid()
      ensures trace == old(trace) + [ArchiveRequested(ArchiveEndpointFor(id, env))]
      ensures r == ArchiveResult(env.fetch(ArchiveEndpointFor(id, env)))
      ensures queue == if r.Ok? then EnqueueUnique(old(queue), RecoveryAction(id, r.value)) else old(queue)
    {
      var originalBlogId := NumericOrNull(Meta(id, OriginalBlogIdKey));
      var originalPostId := NumericOrNull(Meta(id, OriginalPostIdKey));
      var siteSlug := SiteSlug(originalBlogId);
      var route := OriginalRestRoute(id, originalPostId, env.routeForPost(id));
      var endpoint := ArchiveHost + siteSlug + "/wp-json" + route;
      trace := trace + [ArchiveRequested(endpoint)];
      var response := env.fetch(endpoint);
      if response.TransportError? {
        return Err(ArchiveUnavailable);
      }
      var url := response.downloadUrl;
      if url.None? || EmptyString(url.value) {
        return Err(ArchiveMediaMissing);
      }
      queue := EnqueueUnique(queue, RecoveryAction(id, url.value));
      r := Ok(url.value);
    }

    /** `increment_download_total`. */
    method IncrementDownloadTotal(id: int, saved: bool) returns (r: StepResult)
      modifies this`meta, this`trace
      ensures meta == AfterTotal(old(meta), id, saved)
      ensures r == if saved then Logged else Failed(CouldNotIncrementTotal)
      ensures trace == old(trace) + [TotalLogged(id)]
    {
      var total := Meta(id, TotalKey);
      var next := NextTotal(total);
      if saved {
        meta := meta[(id, TotalKey) := Count(next)];
        r := Logged;
      } else {
        r := Failed(CouldNotIncrementTotal);
      }
      trace := trace + [TotalLogged(id)];
    }

    /** `log_monthly_download_count`. */
    method LogMonthlyDownloadCount(id: int, clock: Clock, saved: bool) returns (r: StepResult)
      modifies this`meta, this`trace
      ensures meta == AfterMonthly(old(meta), id, clock, saved)
      ensures r == if saved then Logged else Failed(CouldNotLogMonthly)
      ensures trace == old(trace) + [MonthlyLogged(id)]
    {
      var metaKey := YearKey(clock.year);
      var data := BumpMonth(Meta(id, metaKey), clock.month);
      if saved {
        meta := meta[(id, metaKey) := Months(data)];
        r := Logged;
      } else {
        r := Failed(CouldNotLogMonthly);
      }
      trace := trace + [MonthlyLogged(id)];
    }

    /** `log_dataset_to_user`. */
    method LogDatasetToUser(uid: string, id: int, env: Env, backend: Backend) returns (r: StepResult)
      modifies this`histories, this`trace
      ensures histories == AfterUser(old(histories), uid, id, env, backend)
      ensures r == UserStepResult(backend)
      ensures trace == old(trace) + [UserLogged(uid, id)]
    {
      trace := trace + [UserLogged(uid, id)];
      if backend.userRead.Some? {
        return Failed(backend.userRead.value);
      }
      var datasets := HistoryOf(histories, uid);
      var updated := RecordDownload(datasets, id, env.clock.mysqlNow, env.permalink(id), env.title(id));
      if backend.userPatch.Some? {
        return Failed(backend.userPatch.value);
      }
      histories := histories[uid := updated];
      r := Logged;
    }

    /** The file URL lookup of `restfully_download_dataset`: the attachment's
        URL, else the cached-URL error, else the archive. */
    method ResolveFileUrl(id: int, env: Env) returns (r: Result<string, Error>)
      requires Valid()
      modifies this`queue, this`trace
      ensures Valid()
      ensures match old(SourceFor(id, env))
              case Attachment(url) => r == Ok(url) && queue == old(queue) && trace == old(trace)
              case CachedUrl => r == Err(FailedToGetFileUrl) && queue == old(queue) && trace == old(trace)
              case Archive =>
                && r == ArchiveResult(env.fetch(ArchiveEndpointFor(id, env)))
                && queue == (if r.Ok? then EnqueueUnique(old(queue), RecoveryAction(id, r.value)) else old(queue))
                && trace == old(trace) + [ArchiveRequested(ArchiveEndpointFor(id, env))]
    {
      var fileUrl: Option<string> := None;
      var attachmentId := Meta(id, DownloadAttachmentKey);
      if Truthy(attachmentId) {
        fileUrl := env.attachmentUrl(IntVal(attachmentId));
      }
      if fileUrl.None? || EmptyString(fileUrl.value) {
        var cachedUrl := Meta(id, CachedUrlKey);
        if !Truthy(cachedUrl) {
          r := AttemptDownloadFromArchive(id, env);
        } else {
          r := Err(FailedToGetFileUrl);
        }
      } else {
        r := Ok(fileUrl.value);
      }
    }

    /** The three logging steps both handlers run, in order, each whatever the
        earlier ones returned. */
    method LogSteps(uid: string, id: int, env: Env, backend: Backend) returns (report: LogReport)
      modifies this`meta, this`histories, this`trace
      ensures report == LogReport(
                if backend.totalSaved then Logged else Failed(CouldNotIncrementTotal),
                if backend.monthlySaved then Logged else Failed(CouldNotLogMonthly),
                UserStepResult(backend))
      ensures meta == AfterMonthly(AfterTotal(old(meta), id, backend.totalSaved), id, env.clock, backend.monthlySaved)
      ensures histories == AfterUser(old(histories), uid, id, env, backend)
      ensures trace == old(trace) + LogEvents(uid, id)
    {
      var total := IncrementDownloadTotal(id, backend.totalSaved);
      var monthly := LogMonthlyDownloadCount(id, env.clock, backend.monthlySaved);
      var user := LogDatasetToUser(uid, id, env, backend);
      report := LogReport(total, monthly, user);
    }

    /** `restfully_download_dataset`. */
    method DownloadDataset(req: Request, env: Env, backend: Backend) returns (r: Result<string, Error>)
      requires Valid()
      modifies this
      ensures Valid()
      ensures transients == old(transients)
      ensures r.Err? ==> ErrorStatus(r.error)
                         == if env.verifyNonce(req.nonce, DownloadNonceAction) && req.uid.Some? && !MissingId(req.datasetId)
                            then 500 else 400
      ensures !env.verifyNonce(req.nonce, DownloadNonceAction)
              ==> r == Err(InvalidNonce(400)) && unchanged(this)
      ensures env.verifyNonce(req.nonce, DownloadNonceAction) && req.uid.None?
              ==> r == Err(NoUid) && unchanged(this)
      ensures env.verifyNonce(req.nonce, DownloadNonceAction) && req.uid.Some? && MissingId(req.datasetId)
              ==> r == Err(NoId) && unchanged(this)
      ensures env.verifyNonce(req.nonce, DownloadNonceAction) && req.uid.Some? && !MissingId(req.datasetId)
              ==> var uid, id := req.uid.value, req.datasetId.value;
                  var fetched := [ArchiveRequested(old(ArchiveEndpointFor(id, env)))];
                  && (r.Err? ==> meta == old(meta) && histories == old(histories))
                  && (r.Ok? ==> && meta == AfterMonthly(AfterTotal(old(meta), id, backend.totalSaved), id, env.clock, backend.monthlySaved)
                                && histories == AfterUser(old(histories), uid, id, env, backend))
                  && match old(SourceFor(id, env))
                     case Attachment(url) =>
                       r == Ok(url) && queue == old(queue) && trace == old(trace) + LogEvents(uid, id)
                     case CachedUrl =>
                       r == Err(FailedToGetFileUrl) && queue == old(queue) && trace == old(trace)
                     case Archive =>
                       && r == ArchiveResult(env.fetch(old(ArchiveEndpointFor(id, env))))
                       && (r.Err? ==> queue == old(queue) && trace == old(trace) + fetched)
                       && (r.Ok? ==> && queue == EnqueueUnique(old(queue), RecoveryAction(id, r.value))
                                     && trace == old(trace) + fetched + LogEvents(uid, id))
    {
      if !env.verifyNonce(req.nonce, DownloadNonceAction) {
        return Err(InvalidNonce(400));
      }
      if req.uid.None? {
        return Err(NoUid);
      }
      var uid := req.uid.value;
      if MissingId(req.datasetId) {
        return Err(NoId);
      }
      var id := req.datasetId.value;
      var fileUrl := ResolveFileUrl(id, env);
      if fileUrl.Err? {
        return fileUrl;
      }
      var _ := LogSteps(uid, id, env, backend);
      r := fileUrl;
    }

    /** `restfully_log_download`: all three steps run, in order, whatever the
        earlier ones returned. */
    method LogDownload(req: Request, env: Env, backend: Backend) returns (r: Result<LogReport, Error>)
      modifies this`meta, this`histories, this`trace
      ensures r.Err? ==> ErrorStatus(r.error) == if env.verifyNonce(req.nonce, RestNonceAction) then 400 else 403
      ensures !env.verifyNonce(req.nonce, RestNonceAction)
              ==> r == Err(InvalidNonce(403)) && unchanged(this)
      ensures env.verifyNonce(req.nonce, RestNonceAction) && req.uid.None?
              ==> r == Err(NoUid) && unchanged(this)
      ensures env.verifyNonce(req.nonce, RestNonceAction) && req.uid.Some? && MissingId(req.datasetId)
              ==> r == Err(NoDatasetId) && unchanged(this)
      ensures env.verifyNonce(req.nonce, RestNonceAction) && req.uid.Some? && !MissingId(req.datasetId)
              ==> var uid, id := req.uid.value, req.datasetId.value;
                  && r == Ok(LogReport(
                       if backend.totalSaved then Logged else Failed(CouldNotIncrementTotal),
                       if backend.monthlySaved then Logged else Failed(CouldNotLogMonthly),
                       UserStepResult(backend)))
                  && meta == AfterMonthly(AfterTotal(old(meta), id, backend.totalSaved), id, env.clock, backend.monthlySaved)
                  && histories == AfterUser(old(histories), uid, id, env, backend)
                  && trace == old(trace) + LogEvents(uid, id)
    {
      if !env.verifyNonce(req.nonce, RestNonceAction) {
        return Err(InvalidNonce(403));
      }
      if req.uid.None? {
        return Err(NoUid);
      }
      var uid := req.uid.value;
      if MissingId(req.datasetId) {
        return Err(NoDatasetId);
      }
      var id := req.datasetId.value;
      var report := LogSteps(uid, id, env, backend);
      r := Ok(report);
    }

    /** `restfully_get_download_log` (and the cache-miss path of the stats
        endpoint): one entry per year of `range(2020, $current_year)`. */
    method GetDownloadLog(postId: int, utcYear: int) returns (s: Stats)
      ensures s == StatsOf(meta, postId, utcYear)
    {
      var years := PhpRange(FirstLoggedYear, utcYear);
      var log: map<int, MetaValue> := map[];
      for i := 0 to |years|
        invariant log == LogOver(meta, postId, years[..i])
      {
        LogOverStep(meta, postId, years, i);
        log := log[years[i] := Meta(postId, YearKey(years[i]))];
      }
      assert years[..|years|] == years;
      s := Stats(IntVal(Meta(postId, TotalKey)), log);
    }

    /** `restfully_get_download_stats`: a read-through cache with a one-day TTL. */
    method GetDownloadStats(datasetId: Option<int>, clock: Clock) returns (r: Result<Stats, Error>)
      modifies this`transients
      ensures MissingId(datasetId) ==> r == Err(NoDatasetId) && transients == old(transients)
      ensures !MissingId(datasetId) ==>
                var key := StatsCacheKey(datasetId.value);
                if key in old(transients) && clock.unixNow <= old(transients)[key].expiresAt
                then r == Ok(old(transients)[key].value) && transients == old(transients)
                else && r == Ok(StatsOf(meta, datasetId.value, clock.utcYear))
                     && transients == old(transients)[key := CachedStats(r.value, clock.unixNow + DayInSeconds)]
    {
      if MissingId(datasetId) {
        return Err(NoDatasetId);
      }
      var key := StatsCachePrefix + IntToString(datasetId.value);
      if key in transients && clock.unixNow <= transients[key].expiresAt {
        return Ok(transients[key].value);
      }
      var stats := GetDownloadLog(datasetId.value, clock.utcYear);
      transients := transients[key := CachedStats(stats, clock.unixNow + DayInSeconds)];
      r := Ok(stats);
    }
  }
}

/** What the stats endpoint reports, and how the logging steps change it. */
module StatsFacts {
  import opened Decimal
  import opened PhpValues
  import opened Calendar
  import opened UsageLog
  import opened RestApi

  lemma {:induction false} DistinctImageSize(r: seq<int>, n: nat)
    requires n <= |r|
    requires forall i, j :: 0 <= i < j < |r| ==> r[i] != r[j]
    ensures |set i | 0 <= i < n :: r[i]| == n
  {
    if n > 0 {
      DistinctImageSize(r, n - 1);
      var smaller := set i | 0 <= i < n - 1 :: r[i];
      assert (set i | 0 <= i < n :: r[i]) == smaller + {r[n - 1]};
      assert r[n - 1] !in smaller;
    }
  }

  /** The stats hold one entry for each year from 2020 to the current year
      (from the current year up to 2020 when the clock is before 2020). */
  lemma StatsYears(meta: MetaStore, id: int, utcYear: int)
    ensures var log := StatsOf(meta, id, utcYear).log;
            && (utcYear >= FirstLoggedYear ==> forall y :: y in log <==> FirstLoggedYear <= y <= utcYear)
            && (utcYear < FirstLoggedYear ==> forall y :: y in log <==> utcYear <= y <= FirstLoggedYear)
            && |log.Keys| == if utcYear >= FirstLoggedYear then utcYear - FirstLoggedYear + 1
                             else FirstLoggedYear - utcYear + 1
  {
    var r := PhpRange(FirstLoggedYear, utcYear);
    var log := StatsOf(meta, id, utcYear).log;
    RangeMembers(utcYear);
    DistinctImageSize(r, |r|);
    assert (set i | 0 <= i < |r| :: r[i]) == log.Keys;
  }

  /** The years of `range(2020, $current_year)` are those between the two ends. */
  lemma RangeMembers(utcYear: int)
    ensures forall y :: y in PhpRange(FirstLoggedYear, utcYear) <==>
              if utcYear >= FirstLoggedYear then FirstLoggedYear <= y <= utcYear else utcYear <= y <= FirstLoggedYear
  {
    var r := PhpRange(FirstLoggedYear, utcYear);
    forall y | (if utcYear >= FirstLoggedYear then FirstLoggedYear <= y <= utcYear else utcYear <= y <= FirstLoggedYear)
      ensures y in r
    {
      var i := if utcYear >= FirstLoggedYear then y - FirstLoggedYear else FirstLoggedYear - y;
      assert r[i] == y;
    }
  }

  /** Each year's entry is the year's stored meta; a year nobody downloaded
      in reads as `''`, not as twelve zeros. */
  lemma StatsYearIsStoredMeta(meta: MetaStore, id: int, utcYear: int, y: int)
    requires y in StatsOf(meta, id, utcYear).log
    ensures StatsOf(meta, id, utcYear).log[y] == MetaOf(meta, id, YearKey(y))
    ensures (id, YearKey(y)) !in meta ==> StatsOf(meta, id, utcYear).log[y] == Missing
  {
  }

  lemma TotalKeyIsNoYearKey(y: int)
    ensures TotalKey != YearKey(y)
  {
    assert TotalKey[1] == 't';
    assert YearKey(y)[1] == 'd';
  }

  /** A saved total step raises the reported total by one and leaves every
      year's entry as it was. */
  lemma TotalStepCounts(meta: MetaStore, id: int, utcYear: int)
    ensures StatsOf(AfterTotal(meta, id, true), id, utcYear).total == StatsOf(meta, id, utcYear).total + 1
    ensures StatsOf(AfterTotal(meta, id, true), id, utcYear).log == StatsOf(meta, id, utcYear).log
  {
    var after := AfterTotal(meta, id, true);
    assert MetaOf(after, id, TotalKey) == Count(NextTotal(MetaOf(meta, id, TotalKey)));
    var years := PhpRange(FirstLoggedYear, utcYear);
    forall y | y in years
      ensures MetaOf(after, id, YearKey(y)) == MetaOf(meta, id, YearKey(y))
    {
      TotalKeyIsNoYearKey(y);
    }
    LogOverAgree(after, id, meta, id, years);
  }

  /** A saved monthly step changes only the current year's entry, bumping the
      current month there; the total is untouched. */
  lemma MonthlyStepTouchesOneYear(meta: MetaStore, id: int, clock: Clock, utcYear: int)
    ensures var before := StatsOf(meta, id, utcYear);
            var after := StatsOf(AfterMonthly(meta, id, clock, true), id, utcYear);
            && after.total == before.total
            && after.log.Keys == before.log.Keys
            && (forall y :: y in after.log && y != clock.year ==> after.log[y] == before.log[y])
            && (clock.year in after.log ==>
                  after.log[clock.year] == Months(BumpMonth(before.log[clock.year], clock.month)))
  {
    var key := YearKey(clock.year);
    var v := Months(BumpMonth(MetaOf(meta, id, key), clock.month));
    TotalKeyIsNoYearKey(clock.year);
    StoreOneYear(meta, id, PhpRange(FirstLoggedYear, utcYear), clock.year, v);
  }

  /** Storing one year's meta changes that year's entry of the log and no other. */
  lemma StoreOneYear(meta: MetaStore, id: int, years: seq<int>, year: int, v: MetaValue)
    ensures var before := LogOver(meta, id, years);
            var after := LogOver(meta[(id, YearKey(year)) := v], id, years);
            && after.Keys == before.Keys
            && (forall y :: y in after && y != year ==> after[y] == before[y])
            && (year in after ==> after[year] == v)
  {
    var after := LogOver(meta[(id, YearKey(year)) := v], id, years);
    forall y | y in after && y != year
      ensures after[y] == LogOver(meta, id, years)[y]
    {
      if YearKey(y) == YearKey(year) {
        YearKeyInjective(y, year);
      }
    }
  }

  /** Logging a download of one dataset leaves every other dataset's stats as
      they were. */
  lemma OtherDatasetsUnaffected(meta: MetaStore, id: int, other: int, clock: Clock,
                                totalSaved: bool, monthlySaved: bool, utcYear: int)
    requires other != id
    ensures StatsOf(AfterMonthly(AfterTotal(meta, id, totalSaved), id, clock, monthlySaved), other, utcYear)
            == StatsOf(meta, other, utcYear)
  {
    var after := AfterMonthly(AfterTotal(meta, id, totalSaved), id, clock, monthlySaved);
    assert forall key :: MetaOf(after, other, key) == MetaOf(meta, other, key);
    LogOverAgree(after, other, meta, other, PhpRange(FirstLoggedYear, utcYear));
  }
}
