/**
 * One URL's worker in `ingestDomain` (`src/services/ingestion.js`): the
 * task set of the URL, how its sub-tasks settle given what the remote
 * services did, the error text and final status of the crawl, and the
 * writes that create, run and close the crawl and its task rows.
 */
module IngestionWorker {
  import opened Wrappers
  import opened Text
  import opened Js
  import opened Store
  import Crawls
  import opened IngestionNormalize
  import opened IngestionPipeline

  // -------------------------------------------------------------- tasks

  /** The tasks a URL's crawl is created with; SECTIONS only for a homepage. */
  function TaskSet(urlType: UrlType): (tasks: seq<TaskType>)
    ensures forall t :: t in tasks <==>
      t == SCREENSHOT || t == COLORS || t == TECHNOLOGIES || (t == SECTIONS && urlType == HOMEPAGE)
    ensures Crawls.Distinct(tasks)
  {
    [SCREENSHOT, COLORS, TECHNOLOGIES] + (if urlType == HOMEPAGE then [SECTIONS] else [])
  }

  /** The error the prominent colour update rethrows when the database client lacks the column. */
  const ClientOutOfDate :=
    "Prisma Client is out of date (missing Screenshot.prominentColor). Run `npm run prisma:generate` and restart the API."

  /** What the SECTIONS sub-task hits once the screenshotter answers: the crawl service has no `setSections`. */
  const SetSectionsMissing := "app.services.crawls.setSections is not a function"

  /**
   * The remote calls of one URL's sub-tasks. `screenshotFirst` tells, when
   * both the screenshot and the colour extraction reject, which rejection
   * `Promise.all` sees first.
   */
  datatype Effects = Effects(
    screenshot: Settled, extract: Settled, colorUpdate: Settled, screenshotFirst: bool,
    technologies: Settled, sections: Settled)

  /** How the four sub-tasks settle. `sections` is `None` for a URL that is not a homepage. */
  datatype Outcomes = Outcomes(screenshot: Settled, colors: Settled, technologies: Settled, sections: Option<Settled>)

  /** The COLORS sub-task: it awaits the screenshot and the extraction together, then stores the colour. */
  function ColorsOutcome(fx: Effects): (o: Settled)
    // a failed screenshot always fails COLORS
    ensures fx.screenshot.Rejected? ==> o.Rejected?
    ensures o.Fulfilled? <==> fx.screenshot.Fulfilled? && fx.extract.Fulfilled? && fx.colorUpdate.Fulfilled?
    ensures fx.screenshot.Rejected? && (fx.extract.Fulfilled? || fx.screenshotFirst) ==> o == fx.screenshot
  {
    if fx.screenshot.Rejected? && (fx.extract.Fulfilled? || fx.screenshotFirst) then fx.screenshot
    else if fx.extract.Rejected? then fx.extract
    else match fx.colorUpdate
      case Rejected(m) => Rejected(if Contains(m, "Unknown argument `prominentColor`") then ClientOutOfDate else m)
      case Fulfilled(_) => Fulfilled(fx.extract.value)
  }

  /** The TECHNOLOGIES sub-task: with shared technologies, a failed discovery is rethrown. */
  function TechnologiesOutcome(scope: TechScope, d: Discovery, fx: Effects): (o: Settled)
    ensures scope == HOMEPAGE_SCOPE && d.error.Some? ==> o == Rejected(d.error.value)
    ensures !(scope == HOMEPAGE_SCOPE && d.error.Some?) ==> o == fx.technologies
  {
    if scope == HOMEPAGE_SCOPE && d.error.Some? then Rejected(d.error.value) else fx.technologies
  }

  /** The SECTIONS sub-task never fulfills: it rejects with the screenshotter's error or on the missing `setSections`. */
  function SectionsOutcome(fx: Effects): (o: Settled)
    ensures o.Rejected?
    ensures fx.sections.Fulfilled? ==> o == Rejected(SetSectionsMissing)
  {
    if fx.sections.Rejected? then fx.sections else Rejected(SetSectionsMissing)
  }

  function Settle(urlType: UrlType, scope: TechScope, d: Discovery, fx: Effects): (o: Outcomes)
    ensures o.sections.Some? <==> urlType == HOMEPAGE
    ensures o.sections.Some? ==> o.sections.value.Rejected?
  {
    Outcomes(fx.screenshot, ColorsOutcome(fx), TechnologiesOutcome(scope, d, fx),
             if urlType == HOMEPAGE then Some(SectionsOutcome(fx)) else None)
  }

  /** `reason?.message || fallback` */
  function MessageOr(message: string, fallback: string): string {
    if message != "" then message else fallback
  }

  /** One error entry per rejected sub-task, `name: message`. */
  function Entry(name: string, s: Settled): seq<string> {
    if s.Rejected? then [name + ": " + MessageOr(s.message, "failed")] else []
  }

  /** The crawl's error entries: screenshot, colors, technologies, sections, in that order. */
  function ErrorEntries(o: Outcomes): (entries: seq<string>)
    ensures |entries| == 0 <==>
      (o.screenshot.Fulfilled? && o.colors.Fulfilled? && o.technologies.Fulfilled?
       && (o.sections.None? || o.sections.value.Fulfilled?))
    ensures o.screenshot.Rejected? ==> entries[0] == "screenshot: " + MessageOr(o.screenshot.message, "failed")
  {
    Entry("screenshot", o.screenshot) + Entry("colors", o.colors) + Entry("technologies", o.technologies)
    + (if o.sections.Some? then Entry("sections", o.sections.value) else [])
  }

  /** The crawl's `error` column: the entries joined by `"; "`, left as it was when nothing failed. */
  function CrawlError(o: Outcomes): (e: Option<string>)
    ensures e.None? <==> ErrorEntries(o) == []
    ensures e.Some? ==> e.value == Join(ErrorEntries(o), "; ")
  {
    var entries := ErrorEntries(o);
    if |entries| > 0 then Some(Join(entries, "; ")) else None
  }

  /** The crawl's final status: SUCCESS exactly when the screenshot fulfilled. */
  function FinalStatus(o: Outcomes): (s: Status)
    ensures s == SUCCESS <==> o.screenshot.Fulfilled?
    ensures s == FAILED <==> o.screenshot.Rejected?
  {
    if o.screenshot.Fulfilled? then SUCCESS else FAILED
  }

  /** Failures of COLORS, TECHNOLOGIES or SECTIONS never change the crawl's status. */
  lemma OnlyScreenshotDecidesStatus(o: Outcomes, colors: Settled, technologies: Settled, sections: Option<Settled>)
    ensures FinalStatus(o.(colors := colors, technologies := technologies, sections := sections)) == FinalStatus(o)
  {
  }

  /** A homepage crawl always reports an error, since SECTIONS never fulfills. */
  lemma HomepageCrawlAlwaysHasError(urlType: UrlType, scope: TechScope, d: Discovery, fx: Effects)
    requires urlType == HOMEPAGE
    ensures CrawlError(Settle(urlType, scope, d, fx)).Some?
  {
  }

  /** The crawl-task types ingestion creates. */
  predicate SubTask(t: TaskType) {
    t == SCREENSHOT || t == COLORS || t == TECHNOLOGIES || t == SECTIONS
  }

  /** The default message a sub-task's FAILED patch carries when the rejection has none. */
  function FailureDefault(t: TaskType): string
    requires SubTask(t)
  {
    match t
    case SCREENSHOT => "Screenshot failed"
    case COLORS => "Colors extraction failed"
    case TECHNOLOGIES => "Technologies detection failed"
    case SECTIONS => "Sections screenshotting failed"
  }

  /** How the sub-task of type `t` settled; SECTIONS of a URL without that task counts as not run. */
  function OutcomeOf(o: Outcomes, t: TaskType): Settled
    requires SubTask(t)
  {
    match t
    case SCREENSHOT => o.screenshot
    case COLORS => o.colors
    case TECHNOLOGIES => o.technologies
    case SECTIONS => if o.sections.Some? then o.sections.value else Fulfilled(Undefined)
  }

  /** The patch that closes a sub-task: SUCCESS, or FAILED with its message. */
  function ClosingPatch(t: TaskType, s: Settled): (p: Crawls.TaskPatch)
    requires SubTask(t)
    ensures s.Fulfilled? ==> p == Crawls.TaskPatch(Some(SUCCESS), None)
    ensures s.Rejected? ==> p == Crawls.TaskPatch(Some(FAILED), Some(Some(MessageOr(s.message, FailureDefault(t)))))
  {
    if s.Fulfilled? then Crawls.TaskPatch(Some(SUCCESS), None)
    else Crawls.TaskPatch(Some(FAILED), Some(Some(MessageOr(s.message, FailureDefault(t)))))
  }

  const Running := Crawls.TaskPatch(Some(RUNNING), None)

  /** A task row after its sub-task of type `t` ran: set RUNNING, then closed. */
  function FinishedTask(row: CrawlTask, t: TaskType, s: Settled, now: Time): CrawlTask
    requires SubTask(t)
  {
    Crawls.ApplyTaskPatch(Crawls.ApplyTaskPatch(row, Running, now), ClosingPatch(t, s), now)
  }

  /**
   * A row of crawl `crawlId` and type `t` tried once and closed at `now`:
   * SUCCESS without error when its sub-task fulfilled, FAILED with the
   * sub-task's message (or the type's default) when it rejected.
   */
  predicate ClosedOnce(u: CrawlTask, crawlId: Id, t: TaskType, s: Settled, now: Time)
    requires SubTask(t)
  {
    && u.crawlId == crawlId && u.taskType == t
    && u.attempts == 1
    && u.startedAt == Some(now) && u.finishedAt == Some(now)
    && (u.status == SUCCESS <==> s.Fulfilled?)
    && (u.status == FAILED <==> s.Rejected?)
    && (s.Fulfilled? ==> u.error.None?)
    && (s.Rejected? ==> u.error == Some(MessageOr(s.message, FailureDefault(t))))
  }

  /** A new task row after its sub-task is closed once. */
  lemma FinishedTaskFacts(crawlId: Id, t: TaskType, s: Settled, now: Time)
    requires SubTask(t)
    ensures ClosedOnce(FinishedTask(Crawls.NewTask(crawlId, t), t, s, now), crawlId, t, s, now)
  {
    var n := Crawls.NewTask(crawlId, t);
    var r := Crawls.ApplyTaskPatch(n, Running, now);
    assert r.attempts == 1 && r.startedAt == Some(now) && r.error.None?;
  }

  /** The patch that starts a crawl: RUNNING since `now`. */
  function StartingPatch(now: Time): Crawls.CrawlPatch {
    Crawls.EmptyCrawlPatch.(status := Some(RUNNING), startedAt := Some(now))
  }

  /** The crawl patch that closes a crawl. */
  function ClosingCrawlPatch(url: Url, o: Outcomes, now: Time): Crawls.CrawlPatch {
    Crawls.EmptyCrawlPatch.(status := Some(FinalStatus(o)), finishedAt := Some(now), crawledAt := Some(now),
                            finalUrl := Some(url.normalizedUrl), error := CrawlError(o))
  }

  /** The crawl row after a URL's crawl: created, set RUNNING, then closed. */
  function FinishedCrawl(url: Url, crawlId: Id, o: Outcomes, now: Time): (c: UrlCrawl)
    ensures c.id == crawlId && c.urlId == url.id && c.crawlRunId.None? && c.createdAt == now
    ensures c.status == FinalStatus(o) && c.finalUrl == Some(url.normalizedUrl)
    ensures c.startedAt == Some(now) && c.finishedAt == Some(now) && c.crawledAt == Some(now)
    ensures c.error == CrawlError(o)
  {
    var created := UrlCrawl(crawlId, url.id, None, PENDING, None, None, None, None, None, None, None, None, None, None, false, now);
    var started := Crawls.ApplyCrawlPatch(created, StartingPatch(now));
    Crawls.ApplyCrawlPatch(started, ClosingCrawlPatch(url, o, now))
  }

  // ------------------------------------------------------- one URL's crawl

  /** The crawl-task table after one sub-task's row was set RUNNING and then closed. */
  function CloseTask(m: map<(Id, TaskType), CrawlTask>, crawlId: Id, t: TaskType, s: Settled, now: Time)
    : map<(Id, TaskType), CrawlTask>
    requires SubTask(t) && (crawlId, t) in m
  {
    m[(crawlId, t) := FinishedTask(m[(crawlId, t)], t, s, now)]
  }

  /** The crawl-task table after the worker's sub-tasks: SCREENSHOT, COLORS, TECHNOLOGIES, then SECTIONS when given. */
  function ClosedTasks(m: map<(Id, TaskType), CrawlTask>, crawlId: Id, o: Outcomes, now: Time)
    : map<(Id, TaskType), CrawlTask>
    requires (crawlId, SCREENSHOT) in m && (crawlId, COLORS) in m && (crawlId, TECHNOLOGIES) in m
    requires o.sections.Some? ==> (crawlId, SECTIONS) in m
  {
    var m3 := CloseTask(CloseTask(CloseTask(m, crawlId, SCREENSHOT, o.screenshot, now),
                                  crawlId, COLORS, o.colors, now),
                        crawlId, TECHNOLOGIES, o.technologies, now);
    if o.sections.Some? then CloseTask(m3, crawlId, SECTIONS, o.sections.value, now) else m3
  }

  /** Closing one sub-task rewrites that row only. */
  lemma CloseTaskTouchesOneRow(m: map<(Id, TaskType), CrawlTask>, crawlId: Id, t: TaskType, s: Settled, now: Time)
    requires SubTask(t) && (crawlId, t) in m
    ensures var r := CloseTask(m, crawlId, t, s, now);
      && (forall k :: k in r <==> k in m)
      && (forall k :: k in m && k != (crawlId, t) ==> r[k] == m[k])
      && r[(crawlId, t)] == FinishedTask(m[(crawlId, t)], t, s, now)
  {
  }

  /**
   * Closing the sub-tasks touches exactly the crawl's task rows: each one is
   * finished by its own outcome, and every other row keeps its value.
   */
  lemma ClosedTasksFinishEach(m: map<(Id, TaskType), CrawlTask>, crawlId: Id, o: Outcomes, now: Time)
    requires (crawlId, SCREENSHOT) in m && (crawlId, COLORS) in m && (crawlId, TECHNOLOGIES) in m
    requires o.sections.Some? ==> (crawlId, SECTIONS) in m
    ensures var r := ClosedTasks(m, crawlId, o, now);
      && (forall k :: k in r <==> k in m)
      && r[(crawlId, SCREENSHOT)] == FinishedTask(m[(crawlId, SCREENSHOT)], SCREENSHOT, o.screenshot, now)
      && r[(crawlId, COLORS)] == FinishedTask(m[(crawlId, COLORS)], COLORS, o.colors, now)
      && r[(crawlId, TECHNOLOGIES)] == FinishedTask(m[(crawlId, TECHNOLOGIES)], TECHNOLOGIES, o.technologies, now)
      && (o.sections.Some? ==>
            r[(crawlId, SECTIONS)] == FinishedTask(m[(crawlId, SECTIONS)], SECTIONS, o.sections.value, now))
      && (forall k :: k in m && k.0 != crawlId ==> r[k] == m[k])
      && (o.sections.None? && (crawlId, SECTIONS) in m ==> r[(crawlId, SECTIONS)] == m[(crawlId, SECTIONS)])
  {
    var m1 := CloseTask(m, crawlId, SCREENSHOT, o.screenshot, now);
    CloseTaskTouchesOneRow(m, crawlId, SCREENSHOT, o.screenshot, now);
    var m2 := CloseTask(m1, crawlId, COLORS, o.colors, now);
    CloseTaskTouchesOneRow(m1, crawlId, COLORS, o.colors, now);
    var m3 := CloseTask(m2, crawlId, TECHNOLOGIES, o.technologies, now);
    CloseTaskTouchesOneRow(m2, crawlId, TECHNOLOGIES, o.technologies, now);
    if o.sections.Some? {
      CloseTaskTouchesOneRow(m3, crawlId, SECTIONS, o.sections.value, now);
    }
  }

  /** A new crawl's task rows, as `createCrawl` adds them, hold a row per sub-task of the URL's type. */
  lemma CreatedTaskKeys(base: map<(Id, TaskType), CrawlTask>, crawlId: Id, urlType: UrlType)
    ensures var created := base + Crawls.TaskRows(crawlId, TaskSet(urlType));
      && (crawlId, SCREENSHOT) in created && (crawlId, COLORS) in created && (crawlId, TECHNOLOGIES) in created
      && (urlType == HOMEPAGE ==> (crawlId, SECTIONS) in created)
  {
    var types := TaskSet(urlType);
    assert SCREENSHOT in types && COLORS in types && TECHNOLOGIES in types;
    assert urlType == HOMEPAGE ==> SECTIONS in types;
  }

  /** The crawl-task table once a new crawl of a URL of this type was created and its worker has run. */
  function NewCrawlTasks(base: map<(Id, TaskType), CrawlTask>, crawlId: Id, urlType: UrlType, o: Outcomes, now: Time)
    : map<(Id, TaskType), CrawlTask>
    requires o.sections.Some? ==> urlType == HOMEPAGE
  {
    CreatedTaskKeys(base, crawlId, urlType);
    ClosedTasks(base + Crawls.TaskRows(crawlId, TaskSet(urlType)), crawlId, o, now)
  }

  /** A new crawl's task rows once its worker is done: each row of its task set finished by its own outcome. */
  lemma NewCrawlRows(base: map<(Id, TaskType), CrawlTask>, crawlId: Id, urlType: UrlType, o: Outcomes, now: Time)
    requires forall k :: k in base ==> k.0 != crawlId
    requires o.sections.Some? <==> urlType == HOMEPAGE
    ensures var r := NewCrawlTasks(base, crawlId, urlType, o, now);
      && (forall k :: k in r <==> k in base || (k.0 == crawlId && k.1 in TaskSet(urlType)))
      && (forall k :: k in base ==> r[k] == base[k])
      && r[(crawlId, SCREENSHOT)] == FinishedTask(Crawls.NewTask(crawlId, SCREENSHOT), SCREENSHOT, o.screenshot, now)
      && r[(crawlId, COLORS)] == FinishedTask(Crawls.NewTask(crawlId, COLORS), COLORS, o.colors, now)
      && r[(crawlId, TECHNOLOGIES)] == FinishedTask(Crawls.NewTask(crawlId, TECHNOLOGIES), TECHNOLOGIES, o.technologies, now)
      && (o.sections.Some? ==>
            r[(crawlId, SECTIONS)] == FinishedTask(Crawls.NewTask(crawlId, SECTIONS), SECTIONS, o.sections.value, now))
  {
    var created := base + Crawls.TaskRows(crawlId, TaskSet(urlType));
    CreatedTaskKeys(base, crawlId, urlType);
    ClosedTasksFinishEach(created, crawlId, o, now);
  }

  /** Each task row of a finished crawl was closed once, by its own sub-task's outcome. */
  lemma NewCrawlTasksFinished(base: map<(Id, TaskType), CrawlTask>, crawlId: Id, urlType: UrlType, o: Outcomes, now: Time)
    requires forall k :: k in base ==> k.0 != crawlId
    requires o.sections.Some? <==> urlType == HOMEPAGE
    ensures var r := NewCrawlTasks(base, crawlId, urlType, o, now);
      forall t :: t in TaskSet(urlType) ==>
        (crawlId, t) in r && ClosedOnce(r[(crawlId, t)], crawlId, t, OutcomeOf(o, t), now)
  {
    NewCrawlRows(base, crawlId, urlType, o, now);
    var r := NewCrawlTasks(base, crawlId, urlType, o, now);
    forall t | t in TaskSet(urlType)
      ensures (crawlId, t) in r && ClosedOnce(r[(crawlId, t)], crawlId, t, OutcomeOf(o, t), now)
    {
      if t == SCREENSHOT {
        FinishedTaskFacts(crawlId, SCREENSHOT, o.screenshot, now);
      } else if t == COLORS {
        FinishedTaskFacts(crawlId, COLORS, o.colors, now);
      } else if t == TECHNOLOGIES {
        FinishedTaskFacts(crawlId, TECHNOLOGIES, o.technologies, now);
      } else {
        FinishedTaskFacts(crawlId, SECTIONS, o.sections.value, now);
      }
    }
  }

  /** One sub-task's row: set RUNNING, then closed by how the sub-task settled. */
  method RunTask(db: Db, crawlId: Id, t: TaskType, s: Settled, now: Time)
    requires db.Valid() && SubTask(t) && (crawlId, t) in db.tasks
    modifies db
    ensures db.Valid()
    ensures db.tasks == CloseTask(old(db.tasks), crawlId, t, s, now)
    ensures db.Snapshot() == old(db.Snapshot()).(tasks := db.tasks)
  {
    ghost var before := db.tasks;
    var running := Crawls.PatchTask(db, crawlId, t, Running, now);
    var closed := Crawls.PatchTask(db, crawlId, t, ClosingPatch(t, s), now);
    OverwriteTwice(before, (crawlId, t), running.value, closed.value);
  }

  /** The worker's sub-tasks, each run and closed in turn. */
  method RunTasks(db: Db, crawlId: Id, o: Outcomes, now: Time)
    requires db.Valid()
    requires (crawlId, SCREENSHOT) in db.tasks && (crawlId, COLORS) in db.tasks && (crawlId, TECHNOLOGIES) in db.tasks
    requires o.sections.Some? ==> (crawlId, SECTIONS) in db.tasks
    modifies db
    ensures db.Valid()
    ensures db.tasks == ClosedTasks(old(db.tasks), crawlId, o, now)
    ensures db.Snapshot() == old(db.Snapshot()).(tasks := db.tasks)
  {
    RunTask(db, crawlId, SCREENSHOT, o.screenshot, now);
    RunTask(db, crawlId, COLORS, o.colors, now);
    RunTask(db, crawlId, TECHNOLOGIES, o.technologies, now);
    if o.sections.Some? {
      RunTask(db, crawlId, SECTIONS, o.sections.value, now);
    }
  }

  /** What a worker resolves with. */
  datatype UrlOutcome = UrlOutcome(urlId: Id, crawlId: Id, status: Status)

  /** A created crawl's run: set RUNNING, its sub-tasks run and closed, then closed with its outcome. */
  method RunCrawl(db: Db, url: Url, o: Outcomes, crawlId: Id, now: Time)
    requires db.Valid() && crawlId in db.crawls
    requires (crawlId, SCREENSHOT) in db.tasks && (crawlId, COLORS) in db.tasks && (crawlId, TECHNOLOGIES) in db.tasks
    requires o.sections.Some? ==> (crawlId, SECTIONS) in db.tasks
    modifies db
    ensures db.Valid()
    ensures db.crawls == old(db.crawls)[crawlId := Crawls.ApplyCrawlPatch(
      Crawls.ApplyCrawlPatch(old(db.crawls)[crawlId], StartingPatch(now)), ClosingCrawlPatch(url, o, now))]
    ensures db.tasks == ClosedTasks(old(db.tasks), crawlId, o, now)
    ensures db.Snapshot() == old(db.Snapshot()).(crawls := db.crawls, tasks := db.tasks)
  {
    var started := Crawls.PatchCrawl(db, crawlId, StartingPatch(now));
    ghost var running := db.crawls;
    RunTasks(db, crawlId, o, now);
    assert db.crawls == running;
    var closed := Crawls.PatchCrawl(db, crawlId, ClosingCrawlPatch(url, o, now));
    OverwriteTwice(old(db.crawls), crawlId, started.value, closed.value);
  }

  /**
   * One URL's worker: the crawl is created with the URL's task set, set
   * RUNNING, each sub-task's row is run and closed, and the crawl is closed
   * with its final status, error text and final URL.
   */
  method CrawlUrl(db: Db, url: Url, o: Outcomes, crawlRunId: Option<Id>, newId: Id, now: Time) returns (r: Result<UrlOutcome>)
    requires db.Valid() && newId !in db.crawls
    requires o.sections.Some? <==> url.urlType == HOMEPAGE
    modifies db
    ensures db.Valid()
    ensures url.id !in old(db.urls) ==> r == Err(NotFound("URL not found")) && db.Snapshot() == old(db.Snapshot())
    ensures url.id in old(db.urls) ==>
      && r == Ok(UrlOutcome(url.id, newId, FinalStatus(o)))
      && db.crawls == old(db.crawls)[newId := FinishedCrawl(url, newId, o, now)]
      && db.tasks == NewCrawlTasks(old(db.tasks), newId, url.urlType, o, now)
      && db.Snapshot() == old(db.Snapshot()).(crawls := db.crawls, tasks := db.tasks)
  {
    var crawl := Crawls.CreateCrawl(db, url.id, TaskSet(url.urlType), crawlRunId, newId, now);
    if crawl.Err? {
      return Err(crawl.error);
    }
    CreatedTaskKeys(old(db.tasks), newId, url.urlType);
    RunCrawl(db, url, o, newId, now);
    OverwriteTwice(old(db.crawls), newId, crawl.value, db.crawls[newId]);
    r := Ok(UrlOutcome(url.id, newId, FinalStatus(o)));
  }

}
