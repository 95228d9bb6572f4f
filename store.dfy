/**
 * The relational store the services read and write, as one object whose
 * tables are maps: rows by id, URLs also by their unique `normalizedUrl`,
 * domains also by their unique `host`, crawl tasks by the unique pair
 * (crawlId, type), taxonomy rows by their unique `slug`, and the
 * crawl–category / crawl–technology association rows per crawl, in the
 * order they were created. Generated ids and the clock are supplied by the
 * caller; a transaction either applies all its writes or none.
 */
module Store {
  import opened Wrappers

  type Id = string
  /** A timestamp in milliseconds since the epoch. */
  type Time = int

  datatype UrlType = HOMEPAGE | ABOUT | CONTACT | PRICING | BLOG | CAREERS | DOCS | TERMS | PRIVACY | OTHER

  /** Status of a crawl run, a URL crawl and a crawl task. */
  datatype Status = PENDING | RUNNING | SUCCESS | FAILED

  datatype TaskType = SCREENSHOT | TECHNOLOGIES | CATEGORIES | CONTENT | COLORS | SECTIONS

  /** Only REVIEWED is ever written; the column's default is the other value. */
  datatype ReviewStatus = UNREVIEWED | REVIEWED

  datatype Domain = Domain(id: Id, host: string, canonicalUrl: string, isPublished: bool, createdAt: Time)

  datatype Url = Url(
    id: Id, domainId: Id, path: string, normalizedUrl: string,
    urlType: UrlType, isCanonical: bool, createdAt: Time)

  datatype UrlCrawl = UrlCrawl(
    id: Id, urlId: Id, crawlRunId: Option<Id>, status: Status,
    startedAt: Option<Time>, finishedAt: Option<Time>, crawledAt: Option<Time>,
    httpStatus: Option<int>, finalUrl: Option<string>, title: Option<string>,
    metaDescription: Option<string>, language: Option<string>, contentHash: Option<string>,
    error: Option<string>, isPublished: bool, createdAt: Time)

  datatype CrawlTask = CrawlTask(
    crawlId: Id, taskType: TaskType, status: Status, attempts: nat,
    startedAt: Option<Time>, lastAttemptAt: Option<Time>, finishedAt: Option<Time>,
    error: Option<string>)

  datatype CrawlRun = CrawlRun(
    id: Id, domainId: Id, status: Status, jobId: Option<Id>, optionsJson: Option<string>,
    startedAt: Option<Time>, finishedAt: Option<Time>, error: Option<string>, createdAt: Time,
    reviewStatus: ReviewStatus, reviewedAt: Option<Time>,
    isPublished: bool, publishedAt: Option<Time>, tagsJson: Option<string>)

  datatype Category = Category(slug: string, name: string, description: Option<string>)

  datatype Technology = Technology(
    slug: string, name: string, websiteUrl: Option<string>,
    iconStorageKey: Option<string>, iconPublicUrl: Option<string>, iconContentType: Option<string>)

  /** A crawl–category or crawl–technology row; the taxonomy row is named by its slug. */
  datatype Association = Association(slug: string, confidence: Option<real>)

  datatype Screenshot = Screenshot(
    id: Id, crawlId: Id, format: string, storageKey: string, publicUrl: string,
    prominentColor: Option<string>, isPublished: bool, createdAt: Time)

  datatype Section = Section(id: Id, crawlId: Id, index: int, isPublished: bool)

  /** Every table at one instant, so that a write can say which tables it leaves alone. */
  datatype Tables = Tables(
    domains: map<Id, Domain>, domainByHost: map<string, Id>,
    urls: map<Id, Url>, urlByNormalized: map<string, Id>,
    crawls: map<Id, UrlCrawl>, tasks: map<(Id, TaskType), CrawlTask>,
    crawlRuns: map<Id, CrawlRun>,
    categories: map<string, Category>, technologies: map<string, Technology>,
    crawlCategories: map<Id, seq<Association>>, crawlTechnologies: map<Id, seq<Association>>,
    screenshots: map<Id, Screenshot>, sections: map<Id, Section>)

  /** `Domain.host` is unique: `domainByHost` is exactly the inverse of the domains table. */
  ghost predicate HostIndexed(domains: map<Id, Domain>, domainByHost: map<string, Id>) {
    && (forall h :: h in domainByHost ==>
          domainByHost[h] in domains && domains[domainByHost[h]].host == h)
    && (forall id :: id in domains ==>
          domains[id].id == id && domains[id].host in domainByHost && domainByHost[domains[id].host] == id)
  }

  /** `Url.normalizedUrl` is unique: `urlByNormalized` is exactly the inverse of the URLs table. */
  ghost predicate UrlIndexed(urls: map<Id, Url>, urlByNormalized: map<string, Id>) {
    && (forall n :: n in urlByNormalized ==>
          urlByNormalized[n] in urls && urls[urlByNormalized[n]].normalizedUrl == n)
    && (forall id :: id in urls ==>
          urls[id].id == id && urls[id].normalizedUrl in urlByNormalized
          && urlByNormalized[urls[id].normalizedUrl] == id)
  }

  ghost predicate CrawlsKeyed(crawls: map<Id, UrlCrawl>) {
    forall id :: id in crawls ==> crawls[id].id == id
  }

  /** A task belongs to an existing crawl and sits under its (crawlId, type) pair. */
  ghost predicate TasksKeyed(tasks: map<(Id, TaskType), CrawlTask>, crawls: map<Id, UrlCrawl>) {
    forall k :: k in tasks ==> k.0 in crawls && tasks[k].crawlId == k.0 && tasks[k].taskType == k.1
  }

  ghost predicate RunsKeyed(crawlRuns: map<Id, CrawlRun>) {
    forall id :: id in crawlRuns ==> crawlRuns[id].id == id
  }

  ghost predicate CategoriesKeyed(categories: map<string, Category>) {
    forall slug :: slug in categories ==> categories[slug].slug == slug
  }

  ghost predicate TechnologiesKeyed(technologies: map<string, Technology>) {
    forall slug :: slug in technologies ==> technologies[slug].slug == slug
  }

  /** Writing a key twice leaves the second value. */
  lemma OverwriteTwice<K, V>(m: map<K, V>, k: K, a: V, b: V)
    ensures m[k := a][k := b] == m[k := b]
  {
  }

  /**
   * Writing a URL row keeps the index exact when the row either replaces the
   * row its address already names, or is new under an unused id and address.
   */
  lemma PutUrlKeepsIndexed(urls: map<Id, Url>, index: map<string, Id>, u: Url)
    requires UrlIndexed(urls, index)
    requires u.normalizedUrl in index ==> index[u.normalizedUrl] == u.id
    requires u.normalizedUrl !in index ==> u.id !in urls
    ensures UrlIndexed(urls[u.id := u], index[u.normalizedUrl := u.id])
  {
  }

  class Db {
    var domains: map<Id, Domain>
    var domainByHost: map<string, Id>
    var urls: map<Id, Url>
    var urlByNormalized: map<string, Id>
    var crawls: map<Id, UrlCrawl>
    var tasks: map<(Id, TaskType), CrawlTask>
    var crawlRuns: map<Id, CrawlRun>
    var categories: map<string, Category>
    var technologies: map<string, Technology>
    var crawlCategories: map<Id, seq<Association>>
    var crawlTechnologies: map<Id, seq<Association>>
    var screenshots: map<Id, Screenshot>
    var sections: map<Id, Section>

    /** The unique indexes agree with the tables they index, and every row sits under its own key. */
    ghost predicate Valid()
      reads this
    {
      && HostIndexed(domains, domainByHost)
      && UrlIndexed(urls, urlByNormalized)
      && CrawlsKeyed(crawls)
      && TasksKeyed(tasks, crawls)
      && RunsKeyed(crawlRuns)
      && CategoriesKeyed(categories)
      && TechnologiesKeyed(technologies)
    }

    /** Writes one technology row under its slug. */
    method PutTechnology(t: Technology)
      requires Valid()
      modifies this
      ensures Valid()
      ensures technologies == old(technologies)[t.slug := t]
      ensures Snapshot() == old(Snapshot()).(technologies := technologies)
    {
      technologies := technologies[t.slug := t];
    }

    /** Writes one crawl run row under its id. */
    method PutRun(run: CrawlRun)
      requires Valid()
      modifies this
      ensures Valid()
      ensures crawlRuns == old(crawlRuns)[run.id := run]
      ensures Snapshot() == old(Snapshot()).(crawlRuns := crawlRuns)
    {
      crawlRuns := crawlRuns[run.id := run];
    }

    /** Inserts a new domain row and its host index entry. */
    method PutDomain(d: Domain)
      requires Valid() && d.id !in domains && d.host !in domainByHost
      modifies this
      ensures Valid()
      ensures domains == old(domains)[d.id := d] && domainByHost == old(domainByHost)[d.host := d.id]
      ensures Snapshot() == old(Snapshot()).(domains := domains, domainByHost := domainByHost)
    {
      domains := domains[d.id := d];
      domainByHost := domainByHost[d.host := d.id];
    }

    /** Writes one URL row and its index entry. */
    method PutUrl(u: Url)
      requires Valid()
      requires u.normalizedUrl in urlByNormalized ==> urlByNormalized[u.normalizedUrl] == u.id
      requires u.normalizedUrl !in urlByNormalized ==> u.id !in urls
      modifies this
      ensures Valid()
      ensures urls == old(urls)[u.id := u] && urlByNormalized == old(urlByNormalized)[u.normalizedUrl := u.id]
      ensures Snapshot() == old(Snapshot()).(urls := urls, urlByNormalized := urlByNormalized)
    {
      PutUrlKeepsIndexed(urls, urlByNormalized, u);
      urls := urls[u.id := u];
      urlByNormalized := urlByNormalized[u.normalizedUrl := u.id];
    }

    ghost function Snapshot(): Tables
      reads this
    {
      Tables(domains, domainByHost, urls, urlByNormalized, crawls, tasks, crawlRuns,
             categories, technologies, crawlCategories, crawlTechnologies, screenshots, sections)
    }

    constructor ()
      ensures Valid()
      ensures domains == map[] && urls == map[] && crawls == map[] && tasks == map[]
      ensures crawlRuns == map[] && categories == map[] && technologies == map[]
      ensures crawlCategories == map[] && crawlTechnologies == map[]
      ensures screenshots == map[] && sections == map[]
    {
      domains, domainByHost, urls, urlByNormalized := map[], map[], map[], map[];
      crawls, tasks, crawlRuns := map[], map[], map[];
      categories, technologies, crawlCategories, crawlTechnologies := map[], map[], map[], map[];
      screenshots, sections := map[], map[];
    }
  }
}
