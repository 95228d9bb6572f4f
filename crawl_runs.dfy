/**
 * The crawl-run service (`src/services/crawl-runs.js`): a crawl run is
 * recorded PENDING, an ingestion job is queued for it and linked to it, and
 * the job's handler drives the run through RUNNING to SUCCESS or FAILED
 * around the ingestion of the domain. The ingestion itself is an external
 * step whose outcome is a parameter; `JSON.stringify` is a parameter too.
 */
module CrawlRuns {
  import opened Wrappers
  import opened Js
  import opened Store
  import Jobs
  import Crawls
  import Lists

  const DomainNotFound := "Domain not found"
  const RunFailedDefault := "Crawl run failed"
  const IngestionJobType := "DOMAIN_INGESTION"

  /** `JSON.stringify`, which may throw (a cycle, a BigInt); `safeStringify` turns a throw into `null`. */
  type Stringify = JsValue -> Option<string>

  /** The options as the service receives them: an omitted argument defaults to `{}`. */
  function OptionsOrDefault(options: JsValue): JsValue {
    if options.Undefined? then Obj(map[]) else options
  }

  /** The row `crawlRun.create` writes: PENDING, with the stringified options and nothing else set. */
  function NewRun(id: Id, domainId: Id, optionsJson: Option<string>, now: Time): (run: CrawlRun)
    ensures run.id == id && run.domainId == domainId && run.optionsJson == optionsJson
    ensures run.status == PENDING && run.jobId.None? && run.error.None?
    ensures run.startedAt.None? && run.finishedAt.None? && !run.isPublished
  {
    CrawlRun(id, domainId, PENDING, None, optionsJson, None, None, None, now,
             UNREVIEWED, None, false, None, None)
  }

  /** The job's `input`: `{ domainId, crawlRunId, options }`. */
  function JobInput(domainId: Id, runId: Id, options: JsValue): (v: JsValue)
    ensures Get(v, "domainId") == Str(domainId) && Get(v, "crawlRunId") == Str(runId)
    ensures Get(v, "options") == options
  {
    Obj(map["domainId" := Str(domainId), "crawlRunId" := Str(runId), "options" := options])
  }

  // -------------------------------------------------- the run's updates

  /** Linking the queued job. */
  function Linked(run: CrawlRun, jobId: Id): (r: CrawlRun)
    ensures r.jobId == Some(jobId)
    ensures r.(jobId := run.jobId) == run
  {
    run.(jobId := Some(jobId))
  }

  /** The handler's first write. */
  function Running(run: CrawlRun, now: Time): (r: CrawlRun)
    ensures r.status == RUNNING && r.startedAt == Some(now)
    ensures r.(status := run.status, startedAt := run.startedAt) == run
  {
    run.(status := RUNNING, startedAt := Some(now))
  }

  /** How the ingestion of the domain settled: its result, or `error?.message` of what it threw. */
  datatype Ingestion = Ingested(result: JsValue) | IngestionFailed(message: JsValue)

  /** The handler's last write: SUCCESS with the error cleared, or FAILED with the message. */
  function Settled(run: CrawlRun, outcome: Ingestion, now: Time): (r: CrawlRun)
    ensures r.finishedAt == Some(now)
    ensures outcome.Ingested? ==> r.status == SUCCESS && r.error.None?
    ensures outcome.IngestionFailed? ==>
      && r.status == FAILED
      && r.error == Some(if Truthy(outcome.message) then ToStr(outcome.message) else RunFailedDefault)
    ensures r.(status := run.status, finishedAt := run.finishedAt, error := run.error) == run
  {
    match outcome
    case Ingested(_) => run.(status := SUCCESS, finishedAt := Some(now), error := None)
    case IngestionFailed(m) =>
      run.(status := FAILED, finishedAt := Some(now), error := Some(ToStr(Or(m, Str(RunFailedDefault)))))
  }

  /**
   * Linking the job and the handler's writes touch different columns, so the
   * row ends the same whichever order the two asynchronous paths reach the
   * database in.
   */
  lemma LinkCommutes(run: CrawlRun, jobId: Id, outcome: Ingestion, t1: Time, t2: Time)
    ensures Linked(Running(run, t1), jobId) == Running(Linked(run, jobId), t1)
    ensures Linked(Settled(run, outcome, t2), jobId) == Settled(Linked(run, jobId), outcome, t2)
  {
  }

  /** A run that went through the whole handler: it started, finished, and is SUCCESS exactly when ingestion resolved. */
  lemma Lifecycle(run: CrawlRun, outcome: Ingestion, t1: Time, t2: Time)
    ensures var r := Settled(Running(run, t1), outcome, t2);
      && r.startedAt == Some(t1) && r.finishedAt == Some(t2)
      && (r.status == SUCCESS <==> outcome.Ingested?)
      && (r.status == FAILED <==> outcome.IngestionFailed?)
      && (r.error.Some? <==> outcome.IngestionFailed?)
      && r.id == run.id && r.domainId == run.domainId && r.jobId == run.jobId && r.optionsJson == run.optionsJson
  {
  }

  /** `{ ...result, crawlRunId }`: a non-object result spreads no property. */
  function WithRunId(result: JsValue, runId: Id): (v: JsValue)
    ensures Get(v, "crawlRunId") == Str(runId)
    ensures forall k :: k != "crawlRunId" ==> Get(v, k) == (if result.Obj? then Get(result, k) else Undefined)
  {
    Obj((if result.Obj? then result.fields else map[])["crawlRunId" := Str(runId)])
  }

  /** What the handler's promise settles with: the extended result, or the ingestion error rethrown. */
  function HandlerOutcome(outcome: Ingestion, runId: Id): (o: Jobs.HandlerOutcome)
    ensures outcome.Ingested? ==> o == Jobs.Returned(WithRunId(outcome.result, runId))
    ensures outcome.IngestionFailed? ==> o == Jobs.Threw(outcome.message)
  {
    match outcome
    case Ingested(v) => Jobs.Returned(WithRunId(v, runId))
    case IngestionFailed(m) => Jobs.Threw(m)
  }

  /** The rethrow reaches the job runner: a failed ingestion fails the job with the same message. */
  lemma FailedIngestionFailsJob(j: Jobs.Job, runId: Id, m: JsValue, now: Time)
    requires Truthy(m)
    ensures var k := Jobs.Assign(j, Jobs.SettlePatch(HandlerOutcome(IngestionFailed(m), runId), now));
      k.status == Jobs.FAILED && k.error == Jobs.ErrorObject(m)
  {
  }

  /** A resolved ingestion makes the job SUCCEEDED with a result naming the crawl run. */
  lemma IngestedJobNamesRun(j: Jobs.Job, runId: Id, v: JsValue, now: Time)
    ensures var k := Jobs.Assign(j, Jobs.SettlePatch(HandlerOutcome(Ingested(v), runId), now));
      k.status == Jobs.SUCCEEDED && Get(k.result, "crawlRunId") == Str(runId)
  {
  }

  // --------------------------------------------------------- the service

  /**
   * `requestDomainCrawlRun`: an unknown domain fails before anything is
   * written or queued; otherwise the PENDING run is written, the ingestion
   * job is queued, and the run is linked to the job.
   */
  method RequestDomainCrawlRun(
    db: Db, runner: Jobs.JobRunner, domainId: Id, options: JsValue, stringify: Stringify,
    runId: Id, jobId: Id, now: Time)
    returns (r: Result<(CrawlRun, Jobs.Job)>)
    requires db.Valid() && runner.Valid()
    requires runId !in db.crawlRuns && jobId !in runner.jobs
    modifies db, runner
    ensures db.Valid() && runner.Valid()
    ensures domainId !in old(db.domains) ==>
      && r == Err(NotFound(DomainNotFound))
      && db.Snapshot() == old(db.Snapshot())
      && runner.jobs == old(runner.jobs) && runner.queue == old(runner.queue)
    ensures domainId in old(db.domains) ==>
      && r.Ok?
      && var opts := OptionsOrDefault(options);
      && r.value.0 == Linked(NewRun(runId, domainId, stringify(Coalesce(opts, Null)), now), jobId)
      && db.Snapshot() == old(db.Snapshot()).(crawlRuns := old(db.crawlRuns)[runId := r.value.0])
      && r.value.1.id == jobId && r.value.1.jobType == IngestionJobType
      && r.value.1.input == JobInput(domainId, runId, opts)
      && runner.jobs == old(runner.jobs)[jobId := r.value.1]
  {
    if domainId !in db.domains {
      return Err(NotFound(DomainNotFound));
    }
    var opts := OptionsOrDefault(options);
    var run := NewRun(runId, domainId, stringify(Coalesce(opts, Null)), now);
    db.PutRun(run);
    var job := runner.Enqueue(IngestionJobType, JobInput(domainId, runId, opts), jobId, now);
    var linked := Linked(run, jobId);
    db.PutRun(linked);
    OverwriteTwice(old(db.crawlRuns), runId, run, linked);
    r := Ok((linked, job));
  }

  /** The handler's first step: the run becomes RUNNING; a missing row makes the update throw. */
  method StartRun(db: Db, runId: Id, now: Time) returns (r: Result<CrawlRun>)
    requires db.Valid()
    modifies db
    ensures db.Valid()
    ensures runId !in old(db.crawlRuns) ==>
      r == Err(Crawls.RecordNotFound) && db.Snapshot() == old(db.Snapshot())
    ensures runId in old(db.crawlRuns) ==>
      && r == Ok(Running(old(db.crawlRuns)[runId], now))
      && db.Snapshot() == old(db.Snapshot()).(crawlRuns := old(db.crawlRuns)[runId := r.value])
  {
    if runId !in db.crawlRuns {
      return Err(Crawls.RecordNotFound);
    }
    var run := Running(db.crawlRuns[runId], now);
    db.PutRun(run);
    r := Ok(run);
  }

  /**
   * The handler's last step, once ingestion has settled: the run is
   * recorded SUCCESS or FAILED and the handler resolves with the extended
   * result or rethrows the ingestion error.
   */
  method FinishRun(db: Db, runId: Id, outcome: Ingestion, now: Time) returns (o: Jobs.HandlerOutcome)
    requires db.Valid()
    modifies db
    ensures db.Valid()
    ensures runId !in old(db.crawlRuns) ==>
      o == Jobs.Threw(Str(Crawls.RecordNotFound.message)) && db.Snapshot() == old(db.Snapshot())
    ensures runId in old(db.crawlRuns) ==>
      && o == HandlerOutcome(outcome, runId)
      && db.Snapshot() == old(db.Snapshot()).(
           crawlRuns := old(db.crawlRuns)[runId := Settled(old(db.crawlRuns)[runId], outcome, now)])
  {
    if runId !in db.crawlRuns {
      return Jobs.Threw(Str(Crawls.RecordNotFound.message));
    }
    db.PutRun(Settled(db.crawlRuns[runId], outcome, now));
    o := HandlerOutcome(outcome, runId);
  }

  // --------------------------------------------------------- listing

  /** `Math.max(1, Math.min(Number(limit) || 50, 200))` */
  function RunsTake(limit: JsValue): (take: real)
    ensures 1.0 <= take <= 200.0
    ensures ToNumber(limit).NaN? || ToNumber(limit) == Finite(0.0) ==> take == 50.0
    ensures ToNumber(limit).Finite? && ToNumber(limit).r != 0.0 && 1.0 <= ToNumber(limit).r <= 200.0 ==>
      take == ToNumber(limit).r
  {
    var n := match ToNumber(limit)
      case NaN => 50.0
      case Infinity(positive) => if positive then 200.0 else 1.0
      case Finite(x) => if x == 0.0 then 50.0 else x;
    if n > 200.0 then 200.0 else if n < 1.0 then 1.0 else n
  }

  /** The rows `findMany` keeps: the domain's runs, with the given status when one is asked for. */
  predicate Listed(run: CrawlRun, domainId: Id, status: Option<Status>) {
    run.domainId == domainId && (status.None? || run.status == status.value)
  }

  function FilterRuns(rows: seq<CrawlRun>, domainId: Id, status: Option<Status>): (r: seq<CrawlRun>)
    ensures |r| <= |rows|
    ensures forall i :: 0 <= i < |r| ==> Listed(r[i], domainId, status)
    ensures forall run :: run in r <==> run in rows && Listed(run, domainId, status)
    ensures Lists.Sublist(r, rows)
  {
    if rows == [] then []
    else if Listed(rows[0], domainId, status) then [rows[0]] + FilterRuns(rows[1..], domainId, status)
    else FilterRuns(rows[1..], domainId, status)
  }

  /**
   * `listCrawlRunsForDomain`. `rows` is the table as the database orders it
   * (newest first, then id descending); the result is the first `take` of
   * the matching rows.
   */
  function ListCrawlRunsForDomain(
    domains: map<Id, Domain>, rows: seq<CrawlRun>, domainId: Id, limit: JsValue, status: Option<Status>)
    : (r: Result<seq<CrawlRun>>)
    ensures domainId !in domains <==> r == Err(NotFound(DomainNotFound))
    ensures r.Ok? ==>
      var all := FilterRuns(rows, domainId, status);
      && |r.value| as real <= RunsTake(limit)
      && |r.value| <= |all| && r.value == all[..|r.value|]
      && (|r.value| < |all| ==> |r.value| as real + 1.0 > RunsTake(limit))
  {
    if domainId !in domains then Err(NotFound(DomainNotFound))
    else
      var all := FilterRuns(rows, domainId, status);
      var n := RunsTake(limit).Floor;
      Ok(if |all| <= n then all else all[..n])
  }
}
