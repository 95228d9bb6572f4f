/**
 * `ingestDomain` of the ingestion service (`src/services/ingestion.js`) from
 * end to end: the domain is looked up, technologies are detected for the
 * discovery when needed, the pages finder's answer is filtered to the
 * domain's host and cut to `maxUrls`, the URLs are upserted (with the
 * homepage added when none was found), and every URL gets a crawl whose
 * sub-tasks settle as the remote services did. The remote answers are
 * parameters: `detection` for the technology finder, `pagesFound` for the
 * pages finder, and `effects(i)` for the calls made by the i-th URL's
 * worker. The workers are run one after the other here.
 */
module Ingestion {
  import opened Wrappers
  import opened Js
  import opened Store
  import Normalize
  import Urls
  import opened IngestionNormalize
  import opened IngestionPipeline
  import opened IngestionWorker

  /** What `ingestDomain` resolves with. */
  datatype Ingested = Ingested(domainId: Id, urlsCreatedOrUpdated: nat, crawls: seq<UrlOutcome>)

  /**
   * The first `|results|` URLs are crawled: the j-th under `crawlIds(j)`,
   * finished by how its sub-tasks settled, and its outcome reported at j.
   */
  ghost predicate Crawled(
    crawls: map<Id, UrlCrawl>, urls: seq<Url>, results: seq<UrlOutcome>,
    scope: TechScope, d: Discovery, effects: nat -> Effects, crawlIds: nat -> Id, now: Time)
  {
    && |results| <= |urls|
    && forall j :: 0 <= j < |results| ==>
         var o := Settle(urls[j].urlType, scope, d, effects(j));
         && results[j] == UrlOutcome(urls[j].id, crawlIds(j), FinalStatus(o))
         && crawlIds(j) in crawls
         && crawls[crawlIds(j)] == FinishedCrawl(urls[j], crawlIds(j), o, now)
  }

  /** Crawling one more URL under an id no earlier URL used keeps the earlier crawls. */
  lemma CrawledStep(
    crawls: map<Id, UrlCrawl>, urls: seq<Url>, results: seq<UrlOutcome>,
    scope: TechScope, d: Discovery, effects: nat -> Effects, crawlIds: nat -> Id, now: Time)
    requires Crawled(crawls, urls, results, scope, d, effects, crawlIds, now)
    requires |results| < |urls|
    requires forall j :: 0 <= j < |results| ==> crawlIds(j) != crawlIds(|results|)
    ensures var i := |results|;
      var o := Settle(urls[i].urlType, scope, d, effects(i));
      Crawled(crawls[crawlIds(i) := FinishedCrawl(urls[i], crawlIds(i), o, now)], urls,
              results + [UrlOutcome(urls[i].id, crawlIds(i), FinalStatus(o))], scope, d, effects, crawlIds, now)
  {
    var i := |results|;
    var o := Settle(urls[i].urlType, scope, d, effects(i));
    var crawls' := crawls[crawlIds(i) := FinishedCrawl(urls[i], crawlIds(i), o, now)];
    var results' := results + [UrlOutcome(urls[i].id, crawlIds(i), FinalStatus(o))];
    forall j | 0 <= j < |results'|
      ensures var oj := Settle(urls[j].urlType, scope, d, effects(j));
        && results'[j] == UrlOutcome(urls[j].id, crawlIds(j), FinalStatus(oj))
        && crawlIds(j) in crawls'
        && crawls'[crawlIds(j)] == FinishedCrawl(urls[j], crawlIds(j), oj, now)
    {
      if j < i {
        assert results'[j] == results[j];
      }
    }
  }

  /**
   * The task rows of one crawl once its worker is done: exactly one row per
   * sub-task of the URL's type, each tried once and closed by its own
   * sub-task's outcome.
   */
  ghost predicate CrawlTasksClosed(
    tasks: map<(Id, TaskType), CrawlTask>, crawlId: Id, urlType: UrlType, o: Outcomes, now: Time)
  {
    forall t ::
      && ((crawlId, t) in tasks <==> t in TaskSet(urlType))
      && (t in TaskSet(urlType) ==> ClosedOnce(tasks[(crawlId, t)], crawlId, t, OutcomeOf(o, t), now))
  }

  /**
   * The task table after the first `|results|` crawls: the rows there
   * before are unchanged, every new row belongs to a reported crawl, and
   * the j-th reported crawl's rows are closed by the j-th worker's outcomes.
   */
  ghost predicate TasksCrawled(
    tasks: map<(Id, TaskType), CrawlTask>, start: map<(Id, TaskType), CrawlTask>, urls: seq<Url>,
    results: seq<UrlOutcome>, scope: TechScope, d: Discovery, effects: nat -> Effects, now: Time)
  {
    && |results| <= |urls|
    && (forall k :: k in start ==> k in tasks && tasks[k] == start[k])
    && (forall k :: k in tasks && k !in start ==> exists j :: 0 <= j < |results| && k.0 == results[j].crawlId)
    && (forall j :: 0 <= j < |results| ==>
          CrawlTasksClosed(tasks, results[j].crawlId, urls[j].urlType, Settle(urls[j].urlType, scope, d, effects(j)), now))
  }

  /** A new crawl's task rows, once its worker is done, are closed by its outcomes. */
  lemma NewCrawlClosed(base: map<(Id, TaskType), CrawlTask>, crawlId: Id, urlType: UrlType, o: Outcomes, now: Time)
    requires forall k :: k in base ==> k.0 != crawlId
    requires o.sections.Some? <==> urlType == HOMEPAGE
    ensures CrawlTasksClosed(NewCrawlTasks(base, crawlId, urlType, o, now), crawlId, urlType, o, now)
  {
    NewCrawlRows(base, crawlId, urlType, o, now);
    NewCrawlTasksFinished(base, crawlId, urlType, o, now);
  }

  /** Adding another crawl's rows keeps an earlier crawl's rows as they were. */
  lemma CrawlTasksClosedKept(
    tasks: map<(Id, TaskType), CrawlTask>, after: map<(Id, TaskType), CrawlTask>,
    crawlId: Id, urlType: UrlType, o: Outcomes, now: Time, other: Id)
    requires CrawlTasksClosed(tasks, crawlId, urlType, o, now) && crawlId != other
    requires forall k :: k in after ==> k in tasks || k.0 == other
    requires forall k :: k in tasks ==> k in after && after[k] == tasks[k]
    ensures CrawlTasksClosed(after, crawlId, urlType, o, now)
  {
    forall t
      ensures (crawlId, t) in after <==> (crawlId, t) in tasks
    {
    }
  }

  /** A new crawl's task rows are added under its id only; the other rows are kept. */
  lemma NewCrawlKeys(base: map<(Id, TaskType), CrawlTask>, crawlId: Id, urlType: UrlType, o: Outcomes, now: Time)
    requires forall k :: k in base ==> k.0 != crawlId
    requires o.sections.Some? <==> urlType == HOMEPAGE
    ensures var after := NewCrawlTasks(base, crawlId, urlType, o, now);
      && (forall k :: k in after ==> k in base || k.0 == crawlId)
      && (forall k :: k in base ==> k in after && after[k] == base[k])
  {
    NewCrawlRows(base, crawlId, urlType, o, now);
  }

  /**
   * Crawling one more URL under a fresh id keeps the task table's
   * bookkeeping: `after` is `tasks` with the new crawl's rows added.
   */
  lemma TasksCrawledStep(
    tasks: map<(Id, TaskType), CrawlTask>, after: map<(Id, TaskType), CrawlTask>, start: map<(Id, TaskType), CrawlTask>,
    urls: seq<Url>, results: seq<UrlOutcome>, scope: TechScope, d: Discovery, effects: nat -> Effects, now: Time,
    crawlId: Id)
    requires TasksCrawled(tasks, start, urls, results, scope, d, effects, now) && |results| < |urls|
    requires forall j :: 0 <= j < |results| ==> results[j].crawlId != crawlId
    requires forall k :: k in after ==> k in tasks || k.0 == crawlId
    requires forall k :: k in tasks ==> k in after && after[k] == tasks[k]
    requires CrawlTasksClosed(after, crawlId, urls[|results|].urlType,
                              Settle(urls[|results|].urlType, scope, d, effects(|results|)), now)
    ensures var i := |results|;
      var o := Settle(urls[i].urlType, scope, d, effects(i));
      TasksCrawled(after, start, urls, results + [UrlOutcome(urls[i].id, crawlId, FinalStatus(o))], scope, d, effects, now)
  {
    var i := |results|;
    var o := Settle(urls[i].urlType, scope, d, effects(i));
    var results' := results + [UrlOutcome(urls[i].id, crawlId, FinalStatus(o))];
    forall k | k in after && k !in start
      ensures exists j :: 0 <= j < |results'| && k.0 == results'[j].crawlId
    {
      if k in tasks {
        var j :| 0 <= j < |results| && k.0 == results[j].crawlId;
        assert results'[j] == results[j];
      } else {
        assert k.0 == results'[i].crawlId;
      }
    }
    forall j | 0 <= j < |results'|
      ensures CrawlTasksClosed(after, results'[j].crawlId, urls[j].urlType, Settle(urls[j].urlType, scope, d, effects(j)), now)
    {
      if j < i {
        assert results'[j] == results[j];
        CrawlTasksClosedKept(tasks, after, results[j].crawlId, urls[j].urlType,
                             Settle(urls[j].urlType, scope, d, effects(j)), now, crawlId);
      }
    }
  }

  /**
   * What the caller learns of each URL's crawl: the i-th report names a
   * listed URL and the crawl created under `crawlIds(i)`, whose row agrees
   * with it, is finished at `now`, and is SUCCESS exactly when the i-th
   * worker's screenshot was taken.
   */
  ghost predicate Reported(
    crawls: map<Id, UrlCrawl>, urlIds: set<Id>, reports: seq<UrlOutcome>, effects: nat -> Effects,
    crawlIds: nat -> Id, now: Time)
  {
    forall i :: 0 <= i < |reports| ==>
      var c := reports[i];
      && c.urlId in urlIds && c.crawlId == crawlIds(i) && c.crawlId in crawls
      && crawls[c.crawlId].urlId == c.urlId
      && crawls[c.crawlId].status == c.status
      && crawls[c.crawlId].finishedAt == Some(now)
      && (c.status == SUCCESS <==> effects(i).screenshot.Fulfilled?)
  }

  /** Crawling every listed URL reports each crawl as it was stored. */
  lemma CrawledIsReported(
    crawls: map<Id, UrlCrawl>, urls: seq<Url>, results: seq<UrlOutcome>,
    scope: TechScope, d: Discovery, effects: nat -> Effects, crawlIds: nat -> Id, now: Time, urlIds: set<Id>)
    requires Crawled(crawls, urls, results, scope, d, effects, crawlIds, now) && |results| == |urls|
    requires forall i :: 0 <= i < |urls| ==> urls[i].id in urlIds
    ensures Reported(crawls, urlIds, results, effects, crawlIds, now)
  {
    forall i | 0 <= i < |results|
      ensures results[i].urlId in urlIds && results[i].crawlId in crawls
      ensures crawls[results[i].crawlId].status == results[i].status
    {
      var o := Settle(urls[i].urlType, scope, d, effects(i));
      assert results[i] == UrlOutcome(urls[i].id, crawlIds(i), FinalStatus(o));
    }
  }

  /**
   * Which URL each report is about: behind the homepage's report (when the
   * homepage was added in front), the j-th report is the crawl of the j-th
   * selected page, whose row carries the page's normalised address, crawled
   * with the tasks of the page's guessed type, each closed by its own
   * outcome; the homepage's crawl carries the canonical address and the
   * HOMEPAGE tasks.
   */
  ghost predicate PagesCrawled(
    crawls: map<Id, UrlCrawl>, tasks: map<(Id, TaskType), CrawlTask>, reports: seq<UrlOutcome>, pages: seq<Page>,
    domain: Domain, normalize: Urls.HostNormalizer, scope: TechScope, d: Discovery, effects: nat -> Effects, now: Time)
  {
    && |pages| <= |reports| <= |pages| + 1
    && (forall j :: 0 <= j < |pages| ==>
          var i := |reports| - |pages| + j;
          PageCrawled(crawls, tasks, reports[i], pages[j], domain.host, normalize, scope, d, effects(i), now))
    && (|reports| == |pages| + 1 ==>
          && HomepageAddress(normalize, domain).Ok?
          && UrlCrawled(crawls, tasks, reports[0], HomepageAddress(normalize, domain).value.normalizedUrl,
                        HOMEPAGE, Settle(HOMEPAGE, scope, d, effects(0)), now))
  }

  /** A page's report: its crawl ended at the page's address, typed and tasked as the page's label says. */
  ghost predicate PageCrawled(
    crawls: map<Id, UrlCrawl>, tasks: map<(Id, TaskType), CrawlTask>, c: UrlOutcome, page: Page, host: string,
    normalize: Urls.HostNormalizer, scope: TechScope, d: Discovery, fx: Effects, now: Time)
  {
    && PageAddress(normalize, host, page).Ok?
    && GuessUrlType(page.kind).Some?
    && var urlType := GuessUrlType(page.kind).value;
       UrlCrawled(crawls, tasks, c, PageAddress(normalize, host, page).value.normalizedUrl,
                  urlType, Settle(urlType, scope, d, fx), now)
  }

  /**
   * A report names a stored crawl that ended at `normalizedUrl`, with the
   * status the outcomes settle and its task rows closed by them.
   */
  ghost predicate UrlCrawled(
    crawls: map<Id, UrlCrawl>, tasks: map<(Id, TaskType), CrawlTask>, c: UrlOutcome, normalizedUrl: string,
    urlType: UrlType, o: Outcomes, now: Time)
  {
    && c.crawlId in crawls
    && crawls[c.crawlId].finalUrl == Some(normalizedUrl)
    && c.status == FinalStatus(o)
    && CrawlTasksClosed(tasks, c.crawlId, urlType, o, now)
  }

  /** The i-th report of a crawled list is about the i-th URL. */
  lemma CrawledUrl(
    crawls: map<Id, UrlCrawl>, tasks: map<(Id, TaskType), CrawlTask>, start: map<(Id, TaskType), CrawlTask>,
    urls: seq<Url>, results: seq<UrlOutcome>, scope: TechScope, d: Discovery, effects: nat -> Effects,
    crawlIds: nat -> Id, now: Time, i: nat)
    requires Crawled(crawls, urls, results, scope, d, effects, crawlIds, now)
    requires TasksCrawled(tasks, start, urls, results, scope, d, effects, now)
    requires i < |results|
    ensures UrlCrawled(crawls, tasks, results[i], urls[i].normalizedUrl, urls[i].urlType,
                       Settle(urls[i].urlType, scope, d, effects(i)), now)
  {
    assert results[i] == UrlOutcome(urls[i].id, crawlIds(i), FinalStatus(Settle(urls[i].urlType, scope, d, effects(i))));
  }

  /** Crawling a prepared list in order reports each page's crawl at the page's place. */
  lemma PreparedIsCrawled(
    crawls: map<Id, UrlCrawl>, tasks: map<(Id, TaskType), CrawlTask>, start: map<(Id, TaskType), CrawlTask>,
    urls: seq<Url>, results: seq<UrlOutcome>, pages: seq<Page>, domain: Domain,
    normalize: Urls.HostNormalizer, scope: TechScope, d: Discovery, effects: nat -> Effects,
    crawlIds: nat -> Id, now: Time)
    requires Crawled(crawls, urls, results, scope, d, effects, crawlIds, now) && |results| == |urls|
    requires TasksCrawled(tasks, start, urls, results, scope, d, effects, now)
    requires Prepared(normalize, domain, pages, urls)
    ensures PagesCrawled(crawls, tasks, results, pages, domain, normalize, scope, d, effects, now)
  {
    forall j | 0 <= j < |pages|
      ensures var i := |results| - |pages| + j;
        PageCrawled(crawls, tasks, results[i], pages[j], domain.host, normalize, scope, d, effects(i), now)
    {
      var i := |results| - |pages| + j;
      PreparedPageCrawled(crawls, tasks, start, urls, results, pages[j], urls[i], domain.host, normalize,
                          scope, d, effects, crawlIds, now, i);
    }
    if |results| == |pages| + 1 {
      CrawledUrl(crawls, tasks, start, urls, results, scope, d, effects, crawlIds, now, 0);
    }
  }

  /** The crawl of a URL row that fits its page is that page's crawl. */
  lemma PreparedPageCrawled(
    crawls: map<Id, UrlCrawl>, tasks: map<(Id, TaskType), CrawlTask>, start: map<(Id, TaskType), CrawlTask>,
    urls: seq<Url>, results: seq<UrlOutcome>, page: Page, url: Url, host: string, normalize: Urls.HostNormalizer,
    scope: TechScope, d: Discovery, effects: nat -> Effects, crawlIds: nat -> Id, now: Time, i: nat)
    requires Crawled(crawls, urls, results, scope, d, effects, crawlIds, now)
    requires TasksCrawled(tasks, start, urls, results, scope, d, effects, now)
    requires i < |results| && urls[i] == url && Fits(normalize, host, page, url)
    ensures PageCrawled(crawls, tasks, results[i], page, host, normalize, scope, d, effects(i), now)
  {
    CrawledUrl(crawls, tasks, start, urls, results, scope, d, effects, crawlIds, now, i);
  }

  /** `runWithLimit` over the URLs, one worker after the other: crawl i is created under `crawlIds(i)`. */
  method CrawlUrls(
    db: Db, urls: seq<Url>, scope: TechScope, d: Discovery, effects: nat -> Effects,
    crawlIds: nat -> Id, crawlRunId: Option<Id>, now: Time)
    returns (results: seq<UrlOutcome>)
    requires db.Valid() && FreshIds(crawlIds, db.crawls.Keys)
    requires forall i :: 0 <= i < |urls| ==> urls[i].id in db.urls
    modifies db
    ensures db.Valid()
    ensures |results| == |urls|
    ensures Crawled(db.crawls, urls, results, scope, d, effects, crawlIds, now)
    ensures TasksCrawled(db.tasks, old(db.tasks), urls, results, scope, d, effects, now)
    ensures db.Snapshot() == old(db.Snapshot()).(crawls := db.crawls, tasks := db.tasks)
  {
    results := [];
    var i := 0;
    while i < |urls|
      invariant 0 <= i <= |urls| && |results| == i
      invariant db.Valid()
      invariant db.Snapshot() == old(db.Snapshot()).(crawls := db.crawls, tasks := db.tasks)
      invariant forall k :: k >= i ==> crawlIds(k) !in db.crawls
      invariant Crawled(db.crawls, urls, results, scope, d, effects, crawlIds, now)
      invariant TasksCrawled(db.tasks, old(db.tasks), urls, results, scope, d, effects, now)
    {
      var o := Settle(urls[i].urlType, scope, d, effects(i));
      assert urls[i].id in db.urls;
      ghost var before, tasksBefore := db.crawls, db.tasks;
      assert forall k :: k in tasksBefore ==> k.0 in before;
      assert forall j :: 0 <= j < |results| ==> results[j].crawlId == crawlIds(j) != crawlIds(i);
      var crawl := CrawlUrl(db, urls[i], o, crawlRunId, crawlIds(i), now);
      CrawledStep(before, urls, results, scope, d, effects, crawlIds, now);
      NewCrawlKeys(tasksBefore, crawlIds(i), urls[i].urlType, o, now);
      NewCrawlClosed(tasksBefore, crawlIds(i), urls[i].urlType, o, now);
      TasksCrawledStep(tasksBefore, db.tasks, old(db.tasks), urls, results, scope, d, effects, now, crawlIds(i));
      results := results + [crawl.value];
      i := i + 1;
    }
  }

  /**
   * The crawl stage of `ingestDomain` over the prepared URLs: each report
   * is its page's crawl (or the homepage's), and the task table only gains
   * the rows of the reported crawls.
   */
  method CrawlPrepared(
    db: Db, domain: Domain, pages: seq<Page>, urls: seq<Url>, normalize: Urls.HostNormalizer,
    scope: TechScope, d: Discovery, effects: nat -> Effects, crawlIds: nat -> Id, crawlRunId: Option<Id>, now: Time)
    returns (results: seq<UrlOutcome>)
    requires db.Valid() && FreshIds(crawlIds, db.crawls.Keys)
    requires forall i :: 0 <= i < |urls| ==> urls[i].id in db.urls
    requires Prepared(normalize, domain, pages, urls)
    modifies db
    ensures db.Valid()
    ensures |results| == |urls|
    ensures db.Snapshot() == old(db.Snapshot()).(crawls := db.crawls, tasks := db.tasks)
    ensures Reported(db.crawls, db.urls.Keys, results, effects, crawlIds, now)
    ensures PagesCrawled(db.crawls, db.tasks, results, pages, domain, normalize, scope, d, effects, now)
    ensures forall k :: k in old(db.tasks) ==> k in db.tasks && db.tasks[k] == old(db.tasks)[k]
    ensures forall k :: k in db.tasks && k !in old(db.tasks) ==>
      exists i :: 0 <= i < |results| && k.0 == results[i].crawlId
  {
    results := CrawlUrls(db, urls, scope, d, effects, crawlIds, crawlRunId, now);
    CrawledIsReported(db.crawls, urls, results, scope, d, effects, crawlIds, now, db.urls.Keys);
    PreparedIsCrawled(db.crawls, db.tasks, old(db.tasks), urls, results, pages, domain, normalize,
                      scope, d, effects, crawlIds, now);
  }

  /** The pages the pages finder reported, filtered and cut; its rejection is rethrown. */
  function FoundPages(pagesFound: Settled, domainHost: string, parse: Normalize.UrlParser, options: JsValue)
    : (r: Result<seq<Page>>)
    ensures pagesFound.Rejected? ==> r == Err(Thrown(pagesFound.message))
    ensures pagesFound.Fulfilled? ==>
      r == SelectPages(NormalizePagesResult(pagesFound.value), domainHost, parse, MaxUrls(options))
  {
    match pagesFound
    case Rejected(m) => Err(Thrown(m))
    case Fulfilled(raw) => SelectPages(NormalizePagesResult(raw), domainHost, parse, MaxUrls(options))
  }

  /**
   * `ingestDomain`. Nothing is written when the domain is missing, when
   * the pages finder rejects or when a discovered address does not parse.
   * Otherwise every listed URL (the kept pages, plus the homepage when
   * none of them is one) is in the URL table, and each one's crawl is in
   * the crawl table under its own new id, reporting SUCCESS exactly when
   * its screenshot was taken.
   */
  method IngestDomain(
    db: Db, domainId: Id, options: JsValue, detection: Settled, pagesFound: Settled,
    parse: Normalize.UrlParser, normalize: Urls.HostNormalizer, effects: nat -> Effects,
    urlIds: nat -> Id, crawlIds: nat -> Id, crawlRunId: Option<Id>, now: Time)
    returns (r: Result<Ingested>)
    requires db.Valid() && FreshIds(urlIds, db.urls.Keys) && FreshIds(crawlIds, db.crawls.Keys)
    modifies db
    ensures db.Valid()
    ensures domainId !in old(db.domains) ==>
      r == Err(NotFound(Urls.DomainNotFound)) && db.Snapshot() == old(db.Snapshot())
    ensures domainId in old(db.domains) && FoundPages(pagesFound, old(db.domains)[domainId].host, parse, options).Err? ==>
      && r == Err(FoundPages(pagesFound, old(db.domains)[domainId].host, parse, options).error)
      && db.Snapshot() == old(db.Snapshot())
    ensures r.Ok? ==>
      var pages := FoundPages(pagesFound, old(db.domains)[domainId].host, parse, options);
      && domainId in old(db.domains) && pages.Ok?
      && r.value.domainId == domainId
      && r.value.urlsCreatedOrUpdated == |r.value.crawls|
      && |pages.value| <= |r.value.crawls| <= |pages.value| + 1
      && db.domains == old(db.domains)
      && Reported(db.crawls, db.urls.Keys, r.value.crawls, effects, crawlIds, now)
      && PagesCrawled(db.crawls, db.tasks, r.value.crawls, pages.value, old(db.domains)[domainId], normalize,
                      Scope(options), Discover(Scope(options), ShopifyOption(options), detection), effects, now)
    // the task rows there before are unchanged, and every new one belongs to a reported crawl
    ensures r.Ok? ==>
      && (forall k :: k in old(db.tasks) ==> k in db.tasks && db.tasks[k] == old(db.tasks)[k])
      && (forall k :: k in db.tasks && k !in old(db.tasks) ==>
            exists i :: 0 <= i < |r.value.crawls| && k.0 == r.value.crawls[i].crawlId)
  {
    if domainId !in db.domains {
      return Err(NotFound(Urls.DomainNotFound));
    }
    var domain := db.domains[domainId];
    var scope := Scope(options);
    var d := Discover(scope, ShopifyOption(options), detection);
    var pages := FoundPages(pagesFound, domain.host, parse, options);
    if pages.Err? {
      return Err(pages.error);
    }
    var urls := PrepareUrls(db, domainId, pages.value, normalize, urlIds, now);
    if urls.Err? {
      return Err(urls.error);
    }
    var results := CrawlPrepared(db, domain, pages.value, urls.value, normalize, scope, d, effects, crawlIds, crawlRunId, now);
    r := Ok(Ingested(domainId, |urls.value|, results));
  }
}
