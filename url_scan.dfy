/** The urlscan.io client of the security service
    (security/src/services/url.service.ts): the constructor's guard, the
    mapping of a fetch outcome to "ready", "not ready" or an error, the
    bounded polling loop and the reduction of a raw scan record to a
    verdict. The HTTP calls themselves are an oracle. */
module UrlScan {
  import opened Js

  const BaseUrl := "https://urlscan.io/api/v1"
  /** milliseconds between two polls */
  const PollingInterval: nat := 5000
  const MaxRetries: nat := 12
  /** page scores at or above this are malicious */
  const MaliciousScore := 80
  const MissingApiKey := "urlscan.io API key is required"
  const Uncategorized := "uncategorized"

  datatype UrlScanService = UrlScanService(apiKey: string, baseUrl: string, pollingInterval: nat, maxRetries: nat)

  /** `new UrlScanService(apiKey)`: throws on an empty key. */
  function NewUrlScanService(apiKey: string): (r: Result<UrlScanService, string>)
    ensures r.Failure? <==> apiKey == ""
    ensures r.Failure? ==> r.error == MissingApiKey
    ensures r.Success? ==> r.value == UrlScanService(apiKey, BaseUrl, PollingInterval, MaxRetries)
  {
    if apiKey == "" then Failure(MissingApiKey) else Success(UrlScanService(apiKey, BaseUrl, PollingInterval, MaxRetries))
  }

  // ---------------------------------------------------------------------
  // The raw record, as far as processResults reads it

  /** One entry of `verdicts.engines`; the two flags are the truthiness of
      the entry's `malicious` and `suspicious` fields. */
  datatype RawEngine = RawEngine(malicious: bool, suspicious: bool, confidence: Option<int>)

  /** `verdicts`: `overallScore` is `overall?.score`. */
  datatype RawVerdicts = RawVerdicts(overallScore: Option<int>, engines: Option<map<string, RawEngine>>)

  datatype RawPage = RawPage(categories: Option<seq<string>>, url: Option<string>)

  datatype RawTask = RawTask(url: Option<string>, screenshotURL: Option<string>)

  datatype RawResult = RawResult(verdicts: Option<RawVerdicts>, page: Option<RawPage>, task: Option<RawTask>)

  // ---------------------------------------------------------------------
  // The processed result

  datatype EngineResult = Clean | Malicious | Suspicious

  datatype EngineVerdict = EngineVerdict(result: EngineResult, confidence: Option<int>)

  datatype ScanStatus = Completed | Failed | Processing

  datatype UrlCategory = UrlCategory(primary: string, secondary: seq<string>)

  datatype UrlThreatData = UrlThreatData(score: int, malicious: bool, engines: map<string, EngineVerdict>)

  datatype Summary = Summary(isSafe: bool, category: string, score: int)

  datatype UrlScanResult = UrlScanResult(
    url: string,
    finalUrl: string,
    status: ScanStatus,
    categories: UrlCategory,
    screenshot: Option<string>,
    threat: UrlThreatData,
    summary: Summary)

  /** `verdicts.overall?.score || 0`. */
  function PageScore(raw: RawResult): (score: int)
    ensures raw.verdicts.None? || raw.verdicts.value.overallScore.None? ==> score == 0
    ensures raw.verdicts.Some? && raw.verdicts.value.overallScore.Some? ==> score == raw.verdicts.value.overallScore.value
  {
    if raw.verdicts.Some? && raw.verdicts.value.overallScore.Some? then raw.verdicts.value.overallScore.value else 0
  }

  /** The page categories, or none. */
  function PageCategories(raw: RawResult): seq<string>
  {
    if raw.page.Some? && raw.page.value.categories.Some? then raw.page.value.categories.value else []
  }

  function TaskUrl(raw: RawResult): Option<string>
  {
    if raw.task.Some? then raw.task.value.url else None
  }

  function PageUrl(raw: RawResult): Option<string>
  {
    if raw.page.Some? then raw.page.value.url else None
  }

  /** An engine's verdict: its `malicious` flag wins over its `suspicious`
      flag. */
  function Classify(e: RawEngine): (r: EngineResult)
    ensures r == Malicious <==> e.malicious
    ensures r == Suspicious <==> !e.malicious && e.suspicious
    ensures r == Clean <==> !e.malicious && !e.suspicious
  {
    if e.malicious then Malicious else if e.suspicious then Suspicious else Clean
  }

  function RawEngines(raw: RawResult): map<string, RawEngine>
  {
    if raw.verdicts.Some? && raw.verdicts.value.engines.Some? then raw.verdicts.value.engines.value else map[]
  }

  /** `processResults`. The page counts as malicious at a score of 80 or
      more and is reported safe exactly below it; splitting the categories
      into primary and secondary loses nothing, the primary one standing in
      for the summary's category. */
  function ProcessResults(raw: RawResult): (r: UrlScanResult)
    ensures r.status == Completed
    ensures r.threat.score == r.summary.score == PageScore(raw)
    ensures r.threat.malicious <==> PageScore(raw) >= MaliciousScore
    ensures r.summary.isSafe == !r.threat.malicious
    ensures |PageCategories(raw)| > 0 ==>
              r.categories.primary == PageCategories(raw)[0] && r.categories.secondary == PageCategories(raw)[1..]
    ensures |PageCategories(raw)| == 0 ==> r.categories == UrlCategory(Uncategorized, [])
    ensures r.summary.category == r.categories.primary
    ensures r.threat.engines.Keys == RawEngines(raw).Keys
    ensures forall name :: name in RawEngines(raw) ==>
              r.threat.engines[name] == EngineVerdict(Classify(RawEngines(raw)[name]), RawEngines(raw)[name].confidence)
    ensures r.url == OrElse(TaskUrl(raw), "")
    ensures r.finalUrl == OrElse(PageUrl(raw), OrElse(TaskUrl(raw), ""))
    ensures r.screenshot.Some? <==> raw.task.Some? && raw.task.value.screenshotURL.Some? && raw.task.value.screenshotURL.value != ""
    ensures r.screenshot.Some? ==> r.screenshot == raw.task.value.screenshotURL
  {
    var score := PageScore(raw);
    var isMalicious := score >= MaliciousScore;
    var cats := PageCategories(raw);
    var primary := if |cats| > 0 then cats[0] else Uncategorized;
    var secondary := if |cats| > 0 then cats[1..] else [];
    var raws := RawEngines(raw);
    var engines := map name | name in raws :: EngineVerdict(Classify(raws[name]), raws[name].confidence);
    var screenshot :=
      if raw.task.Some? && raw.task.value.screenshotURL.Some? && raw.task.value.screenshotURL.value != ""
      then raw.task.value.screenshotURL else None;
    UrlScanResult(
      OrElse(TaskUrl(raw), ""),
      OrElse(PageUrl(raw), OrElse(TaskUrl(raw), "")),
      Completed,
      UrlCategory(primary, secondary),
      screenshot,
      UrlThreatData(score, isMalicious, engines),
      Summary(!isMalicious, primary, score))
  }

  // ---------------------------------------------------------------------
  // Fetching and polling

  /** What one GET of `/result/{uuid}` does: a response with its body (or a
      falsy body), an axios error with its HTTP status and the API's
      message, another Error, or a thrown value that is not an Error. */
  datatype HttpOutcome =
    | Response(data: Option<RawResult>)
    | AxiosError(status: Option<int>, apiMessage: Option<string>, message: string)
    | OtherError(message: string)
    | NonError

  /** The errors `waitForResults` can end in. */
  datatype ScanError = Timeout | FetchFailed(message: string)

  const FetchPrefix := "Failed to retrieve scan results: "

  /** `getScanResult`: a 404 means "not ready yet" and yields no result;
      every other failure is rethrown with the prefix above. */
  function GetScanResult(o: HttpOutcome): (r: Result<Option<RawResult>, ScanError>)
    ensures r == Success(None) <==> o == Response(None) || (o.AxiosError? && o.status == Some(404))
    ensures r.Failure? <==> !o.Response? && !(o.AxiosError? && o.status == Some(404))
    ensures r.Failure? ==> r.error.FetchFailed? && FetchPrefix <= r.error.message
    ensures o.Response? && o.data.Some? ==> r == Success(o.data)
  {
    match o
    case Response(data) => Success(data)
    case AxiosError(status, apiMessage, message) =>
      if status == Some(404) then Success(None)
      else Failure(FetchFailed(FetchPrefix + OrElse(apiMessage, message)))
    case OtherError(message) => Failure(FetchFailed(FetchPrefix + message))
    case NonError => Failure(FetchFailed(FetchPrefix + "Unknown error"))
  }

  /** A poll whose outcome lets the loop go on. */
  predicate NotReady(o: HttpOutcome)
  {
    GetScanResult(o) == Success(None)
  }

  /** `waitForResults`: `outcomes(i)` is what the i-th call of
      `getScanResult` meets. At most `maxRetries` polls are made; the first
      poll that yields a record ends the loop with that record processed, a
      fetch error ends it with that error, and `maxRetries` polls that are
      all not ready end it in a timeout. `polls` is the number of polls. */
  method WaitForResults(svc: UrlScanService, outcomes: nat -> HttpOutcome)
    returns (r: Result<UrlScanResult, ScanError>, polls: nat)
    ensures polls <= svc.maxRetries
    ensures forall i :: 0 <= i < polls - 1 ==> NotReady(outcomes(i))
    ensures r.Success? ==>
              && polls >= 1
              && outcomes(polls - 1).Response? && outcomes(polls - 1).data.Some?
              && r.value == ProcessResults(outcomes(polls - 1).data.value)
    ensures r.Failure? && r.error.FetchFailed? ==>
              polls >= 1 && GetScanResult(outcomes(polls - 1)) == Failure(r.error)
    ensures r == Failure(Timeout) <==> polls == svc.maxRetries && forall i :: 0 <= i < polls ==> NotReady(outcomes(i))
  {
    var retries := 0;
    while retries < svc.maxRetries
      invariant retries <= svc.maxRetries
      invariant forall i :: 0 <= i < retries ==> NotReady(outcomes(i))
    {
      var fetched := GetScanResult(outcomes(retries));
      if fetched.Failure? {
        return Failure(fetched.error), retries + 1;
      }
      if fetched.value.Some? {
        return Success(ProcessResults(fetched.value.value)), retries + 1;
      }
      retries := retries + 1;
    }
    return Failure(Timeout), retries;
  }
}
