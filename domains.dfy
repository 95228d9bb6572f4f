/**
 * The domain service (`src/services/domains.js`): find-or-create of a
 * domain by its normalised host, with its homepage URL and an initial crawl
 * on request; the cursor-paged listing of domains; and the selections made
 * from a domain's homepage crawl.
 */
module Domains {
  import opened Wrappers
  import opened Text
  import opened Js
  import opened Store
  import opened Normalize
  import opened Pagination
  import Urls
  import Crawls
  import Lists

  const DomainNotFound := "Domain not found"

  /** The tasks of the initial crawl, in the order they are created. */
  const InitialTasks: seq<TaskType> := [SCREENSHOT, TECHNOLOGIES, CATEGORIES, CONTENT, COLORS]

  /** The request: the address typed in, and the two flags. */
  datatype DomainRequest = DomainRequest(domain: string, createHomepageUrl: bool, createInitialCrawl: bool)

  /** The reply: 201 for a new domain, 200 for an existing one, with what was written alongside. */
  datatype Created = Created(statusCode: int, domain: Domain, homepageUrl: Option<Url>, initialCrawl: Option<UrlCrawl>)

  /** The homepage upsert's payload: HOMEPAGE and canonical, on update as on create. */
  const HomepagePayload := Urls.UrlPayload(Undefined, Some(HOMEPAGE), Some(true))

  /** `existing ?? create(...)`: the row the host already names, or a new one; the flag says which. */
  function FindOrCreate(domains: map<Id, Domain>, byHost: map<string, Id>, d: DomainInput, newId: Id, now: Time)
    : (r: (Domain, bool))
    requires HostIndexed(domains, byHost)
    ensures r.1 <==> d.host !in byHost
    ensures r.0.host == d.host
    ensures !r.1 ==> r.0 == domains[byHost[d.host]]
    ensures r.1 ==> r.0 == Domain(newId, d.host, d.canonicalUrl, false, now)
  {
    if d.host in byHost then (domains[byHost[d.host]], false)
    else (Domain(newId, d.host, d.canonicalUrl, false, now), true)
  }

  /** Asking again for a host just created finds that row and creates nothing. */
  lemma FindOrCreateAgain(domains: map<Id, Domain>, byHost: map<string, Id>, d: DomainInput, id1: Id, t1: Time, id2: Id, t2: Time)
    requires HostIndexed(domains, byHost) && id1 !in domains
    ensures var (dom, created) := FindOrCreate(domains, byHost, d, id1, t1);
      var domains1 := if created then domains[dom.id := dom] else domains;
      var byHost1 := if created then byHost[dom.host := dom.id] else byHost;
      && HostIndexed(domains1, byHost1)
      && FindOrCreate(domains1, byHost1, d, id2, t2) == (dom, false)
  {
  }

  /**
   * `createDomain`, one transaction: an address the parser refuses fails
   * before any write; the domain is found or created by host and an existing
   * one is never modified; the homepage URL is upserted only on request and
   * the initial crawl is created only on request and when that URL exists.
   */
  method CreateDomain(db: Db, input: DomainRequest, parse: UrlParser, domainId: Id, urlId: Id, crawlId: Id, now: Time)
    returns (r: Result<Created>)
    requires db.Valid() && domainId !in db.domains && urlId !in db.urls && crawlId !in db.crawls
    modifies db
    ensures db.Valid()
    ensures NormalizeDomainInput(input.domain, parse).Err? ==> r.Err?
    ensures r.Err? ==> db.Snapshot() == old(db.Snapshot())
    ensures r.Ok? ==>
      && NormalizeDomainInput(input.domain, parse).Ok?
      && var d := NormalizeDomainInput(input.domain, parse).value;
      && var (dom, created) := FindOrCreate(old(db.domains), old(db.domainByHost), d, domainId, now);
      && r.value.statusCode == (if created then 201 else 200)
      && r.value.domain == dom
      && db.domains == (if created then old(db.domains)[domainId := dom] else old(db.domains))
      && (r.value.homepageUrl.Some? <==> input.createHomepageUrl)
      && (r.value.initialCrawl.Some? <==> input.createHomepageUrl && input.createInitialCrawl)
    ensures r.Ok? && r.value.homepageUrl.None? ==>
      db.urls == old(db.urls) && db.urlByNormalized == old(db.urlByNormalized)
    // the homepage address comes from the normalised input, not from the stored row
    ensures (NormalizeDomainInput(input.domain, parse).Ok? && input.createHomepageUrl
             && NormalizeUrlInput(NormalizeDomainInput(input.domain, parse).value.canonicalUrl, parse).Err?) ==> r.Err?
    ensures r.Ok? && r.value.homepageUrl.Some? ==>
      && var h := NormalizeUrlInput(NormalizeDomainInput(input.domain, parse).value.canonicalUrl, parse);
      && h.Ok?
      && var u := r.value.homepageUrl.value;
      && u == Urls.UpsertedUrl(old(db.urls), old(db.urlByNormalized), r.value.domain.id, h.value, HomepagePayload, urlId, now)
      && db.urls == old(db.urls)[u.id := u]
    ensures r.Ok? && r.value.initialCrawl.None? ==> db.crawls == old(db.crawls) && db.tasks == old(db.tasks)
    ensures r.Ok? && r.value.initialCrawl.Some? ==>
      && r.value.homepageUrl.Some?
      && r.value.initialCrawl.value == UrlCrawl(crawlId, r.value.homepageUrl.value.id, None, PENDING,
                                                None, None, None, None, None, None, None, None, None, None, false, now)
      && db.crawls == old(db.crawls)[crawlId := r.value.initialCrawl.value]
      && db.tasks == old(db.tasks) + Crawls.TaskRows(crawlId, InitialTasks)
    ensures db.crawlRuns == old(db.crawlRuns) && db.categories == old(db.categories)
    ensures db.technologies == old(db.technologies) && db.screenshots == old(db.screenshots)
    ensures db.crawlCategories == old(db.crawlCategories) && db.crawlTechnologies == old(db.crawlTechnologies)
    ensures db.sections == old(db.sections)
  {
    var normalized := NormalizeDomainInput(input.domain, parse);
    if normalized.Err? {
      return Err(normalized.error);
    }
    var d := normalized.value;
    var homepage: Option<UrlInput> := None;
    if input.createHomepageUrl {
      var h := NormalizeUrlInput(d.canonicalUrl, parse);
      if h.Err? {
        return Err(h.error);
      }
      homepage := Some(h.value);
    }
    var domain, created := EnsureDomain(db, d, domainId, now);
    var homepageUrl := EnsureHomepage(db, domain.id, homepage, urlId, now);
    var initialCrawl := MaybeInitialCrawl(db, input.createInitialCrawl, homepageUrl, crawlId, now);
    r := Ok(Created(if created then 201 else 200, domain, homepageUrl, initialCrawl));
  }

  /** The domain step of the transaction. */
  method EnsureDomain(db: Db, d: DomainInput, domainId: Id, now: Time) returns (domain: Domain, created: bool)
    requires db.Valid() && domainId !in db.domains
    modifies db
    ensures db.Valid()
    ensures (domain, created) == FindOrCreate(old(db.domains), old(db.domainByHost), d, domainId, now)
    ensures db.domains == (if created then old(db.domains)[domainId := domain] else old(db.domains))
    ensures db.Snapshot() == old(db.Snapshot()).(domains := db.domains, domainByHost := db.domainByHost)
  {
    var found := FindOrCreate(db.domains, db.domainByHost, d, domainId, now);
    domain, created := found.0, found.1;
    if created {
      db.PutDomain(domain);
    }
  }

  /** The homepage step: the HOMEPAGE, canonical row for the address, when one was asked for. */
  method EnsureHomepage(db: Db, domainId: Id, homepage: Option<UrlInput>, urlId: Id, now: Time) returns (u: Option<Url>)
    requires db.Valid() && urlId !in db.urls
    modifies db
    ensures db.Valid()
    ensures u.Some? <==> homepage.Some?
    ensures u.None? ==> db.Snapshot() == old(db.Snapshot())
    ensures u.Some? ==>
      && u.value == Urls.UpsertedUrl(old(db.urls), old(db.urlByNormalized), domainId, homepage.value, HomepagePayload, urlId, now)
      && db.urls == old(db.urls)[u.value.id := u.value]
      && db.Snapshot() == old(db.Snapshot()).(urls := db.urls, urlByNormalized := db.urlByNormalized)
  {
    if homepage.None? {
      return None;
    }
    var row := Urls.UpsertedUrl(db.urls, db.urlByNormalized, domainId, homepage.value, HomepagePayload, urlId, now);
    db.PutUrl(row);
    u := Some(row);
  }

  /** The crawl step: only when asked for and when the homepage URL exists. */
  method MaybeInitialCrawl(db: Db, wanted: bool, homepageUrl: Option<Url>, crawlId: Id, now: Time) returns (c: Option<UrlCrawl>)
    requires db.Valid() && crawlId !in db.crawls
    modifies db
    ensures db.Valid()
    ensures c.Some? <==> wanted && homepageUrl.Some?
    ensures c.None? ==> db.Snapshot() == old(db.Snapshot())
    ensures c.Some? ==>
      && c.value == UrlCrawl(crawlId, homepageUrl.value.id, None, PENDING, None, None, None, None, None, None, None, None, None, None, false, now)
      && db.Snapshot() == old(db.Snapshot()).(crawls := old(db.crawls)[crawlId := c.value],
                                              tasks := old(db.tasks) + Crawls.TaskRows(crawlId, InitialTasks))
  {
    if !wanted || homepageUrl.None? {
      return None;
    }
    var crawl := UrlCrawl(crawlId, homepageUrl.value.id, None, PENDING, None, None, None, None, None, None, None, None, None, None, false, now);
    Crawls.InsertCrawl(db, crawl, InitialTasks);
    c := Some(crawl);
  }

  // ------------------------------------------------------------ listing

  /** The listing query: `search` is empty when not given. */
  datatype DomainQuery = DomainQuery(limit: JsValue, cursor: CursorParam, search: string, includeHomepage: bool)

  /** A category link of a crawl together with the category it names (`categories: { include: { category: true } }`). */
  datatype LinkedCategory = LinkedCategory(link: Association, category: Category)

  /** A homepage crawl with what the listing includes: its tasks, its newest screenshot (at most one) and its category links. */
  datatype IncludedCrawl = IncludedCrawl(
    crawl: UrlCrawl, tasks: seq<CrawlTask>, screenshots: seq<Screenshot>, categories: seq<LinkedCategory>)

  /** A listed homepage URL with its `crawls` include: its newest crawl, or none. */
  datatype ListedHomepage = ListedHomepage(url: Url, crawls: seq<IncludedCrawl>)

  /** One listed domain; `homepage` is `None` when the field is not sent and `Some(None)` for `null`. */
  datatype DomainItem = DomainItem(domain: Domain, urlsCount: nat, homepage: Option<Option<ListedHomepage>>)

  datatype DomainPage = DomainPage(items: seq<DomainItem>, nextCursor: Option<Wire>)

  function DomainKey(d: Domain): Key {
    Key(d.createdAt, d.id)
  }

  /** `{ host: { contains: search } }`, applied only for a non-empty search. */
  function FilterHosts(rows: seq<Domain>, search: string): (r: seq<Domain>)
    ensures |r| <= |rows|
    ensures forall d :: d in r <==> d in rows && (search == "" || Contains(d.host, search))
    ensures Lists.Sublist(r, rows)
  {
    if rows == [] then []
    else if search == "" || Contains(rows[0].host, search) then [rows[0]] + FilterHosts(rows[1..], search)
    else FilterHosts(rows[1..], search)
  }

  /** Filtering by host keeps the listing order. */
  lemma {:induction false} FilterHostsOrdered(rows: seq<Domain>, search: string)
    requires ListingOrder(rows, DomainKey)
    ensures ListingOrder(FilterHosts(rows, search), DomainKey)
  {
    if rows != [] {
      ListingOrderTail(rows, DomainKey);
      FilterHostsOrdered(rows[1..], search);
      var rest := FilterHosts(rows[1..], search);
      if search == "" || Contains(rows[0].host, search) {
        forall x | x in rest ensures KeyLt(DomainKey(x), DomainKey(rows[0])) {
          var k :| 0 <= k < |rows[1..]| && rows[1..][k] == x;
          assert rows[k + 1] == x;
        }
        var r := [rows[0]] + rest;
        forall i, j | 0 <= i < j < |r| ensures KeyLt(DomainKey(r[j]), DomainKey(r[i])) {
          assert r[j] == rest[j - 1];
          if i > 0 {
            assert r[i] == rest[i - 1];
          }
        }
      }
    }
  }

  /** The `url.groupBy` count of a domain's URLs; a domain without URLs has no group and counts 0. */
  function UrlCount(urls: map<Id, Url>, domainId: Id): nat {
    |set id | id in urls && urls[id].domainId == domainId|
  }

  predicate HomepageOf(domainId: Id, u: Url) {
    u.domainId == domainId
  }

  /**
   * The homepage `new Map(homepageUrls.map(...))` keeps for a domain: when a
   * domain has several HOMEPAGE rows the last one listed wins.
   */
  function MappedHomepage(homepageRows: seq<Url>, domainId: Id): (u: Option<Url>)
    ensures u.Some? ==> u.value in homepageRows && u.value.domainId == domainId
    ensures u.Some? ==>
      exists k :: 0 <= k < |homepageRows| && homepageRows[k] == u.value
                  && forall j :: k < j < |homepageRows| ==> homepageRows[j].domainId != domainId
    ensures u.None? ==> forall v :: v in homepageRows ==> v.domainId != domainId
  {
    var i := Lists.LastWhere(homepageRows, u => HomepageOf(domainId, u));
    if i.Some? then Some(homepageRows[i.value]) else None
  }

  /** Every task type, in declaration order. */
  const AllTaskTypes: seq<TaskType> := [SCREENSHOT, TECHNOLOGIES, CATEGORIES, CONTENT, COLORS, SECTIONS]

  function TaskOf(t: Tables, crawlId: Id, tt: TaskType): Option<CrawlTask> {
    if (crawlId, tt) in t.tasks then Some(t.tasks[(crawlId, tt)]) else None
  }

  /** `tasks: true`: every task row of the crawl, each once. */
  function CrawlTasks(t: Tables, crawlId: Id): (r: seq<CrawlTask>)
    ensures forall tt :: (crawlId, tt) in t.tasks ==> t.tasks[(crawlId, tt)] in r
    ensures forall x :: x in r ==> exists tt :: (crawlId, tt) in t.tasks && t.tasks[(crawlId, tt)] == x
    ensures |r| <= |AllTaskTypes|
  {
    var r := Lists.KeepSome(AllTaskTypes, tt => TaskOf(t, crawlId, tt));
    forall tt | (crawlId, tt) in t.tasks ensures t.tasks[(crawlId, tt)] in r {
      Lists.KeepSomeMembers(AllTaskTypes, tt => TaskOf(t, crawlId, tt), t.tasks[(crawlId, tt)]);
      assert tt == AllTaskTypes[match tt case SCREENSHOT => 0 case TECHNOLOGIES => 1 case CATEGORIES => 2
                                              case CONTENT => 3 case COLORS => 4 case SECTIONS => 5];
    }
    forall x | x in r ensures exists tt :: (crawlId, tt) in t.tasks && t.tasks[(crawlId, tt)] == x {
      Lists.KeepSomeMembers(AllTaskTypes, tt => TaskOf(t, crawlId, tt), x);
    }
    r
  }

  /** `screenshots: { orderBy: createdAt desc, take: 1 }` over `shotRows`, the screenshot table newest first. */
  function NewestShot(shotRows: seq<Screenshot>, crawlId: Id): (r: seq<Screenshot>)
    ensures |r| <= 1
    ensures r == [] <==> forall s :: s in shotRows ==> s.crawlId != crawlId
    ensures r != [] ==>
      exists k :: 0 <= k < |shotRows| && shotRows[k] == r[0] && r[0].crawlId == crawlId
                  && forall j :: 0 <= j < k ==> shotRows[j].crawlId != crawlId
  {
    var i := Lists.FirstWhere(shotRows, (s: Screenshot) => s.crawlId == crawlId);
    if i.Some? then [shotRows[i.value]] else []
  }

  function LinkOf(t: Tables, a: Association): Option<LinkedCategory> {
    if a.slug in t.categories then Some(LinkedCategory(a, t.categories[a.slug])) else None
  }

  /** The crawl's category links, in stored order, each with the category its slug names. */
  function LinkedCategories(t: Tables, crawlId: Id): (r: seq<LinkedCategory>)
    ensures var links := if crawlId in t.crawlCategories then t.crawlCategories[crawlId] else [];
      && (forall a :: a in links && a.slug in t.categories ==> LinkedCategory(a, t.categories[a.slug]) in r)
      && (forall x :: x in r ==> x.link in links && x.link.slug in t.categories && x.category == t.categories[x.link.slug])
  {
    var links := if crawlId in t.crawlCategories then t.crawlCategories[crawlId] else [];
    var r := Lists.KeepSome(links, a => LinkOf(t, a));
    forall a | a in links && a.slug in t.categories ensures LinkedCategory(a, t.categories[a.slug]) in r {
      Lists.KeepSomeMembers(links, a => LinkOf(t, a), LinkedCategory(a, t.categories[a.slug]));
    }
    forall x | x in r ensures x.link in links && x.link.slug in t.categories && x.category == t.categories[x.link.slug] {
      Lists.KeepSomeMembers(links, a => LinkOf(t, a), x);
    }
    r
  }

  /**
   * The homepage URL with its `crawls` include: its newest crawl of any
   * status (`crawlRows` is the crawl table newest first), or none.
   */
  function IncludeHomepage(t: Tables, crawlRows: seq<UrlCrawl>, shotRows: seq<Screenshot>, u: Url): (h: ListedHomepage)
    ensures h.url == u && |h.crawls| <= 1
    ensures h.crawls == [] <==> forall c :: c in crawlRows ==> c.urlId != u.id
    ensures h.crawls != [] ==>
      && h.crawls[0].crawl == LatestCrawl(crawlRows, u.id, false).value
      && h.crawls[0].tasks == CrawlTasks(t, h.crawls[0].crawl.id)
      && h.crawls[0].screenshots == NewestShot(shotRows, h.crawls[0].crawl.id)
      && h.crawls[0].categories == LinkedCategories(t, h.crawls[0].crawl.id)
  {
    match LatestCrawl(crawlRows, u.id, false)
    case None => ListedHomepage(u, [])
    case Some(c) =>
      ListedHomepage(u, [IncludedCrawl(c, CrawlTasks(t, c.id), NewestShot(shotRows, c.id), LinkedCategories(t, c.id))])
  }

  /** `homepageByDomainId.get(domain.id) ?? null`: the mapped homepage with its includes, or `null`. */
  function HomepageEntry(t: Tables, homepageRows: seq<Url>, crawlRows: seq<UrlCrawl>, shotRows: seq<Screenshot>, domainId: Id)
    : (h: Option<ListedHomepage>)
    ensures h.Some? <==> MappedHomepage(homepageRows, domainId).Some?
    ensures h.Some? ==> h.value == IncludeHomepage(t, crawlRows, shotRows, MappedHomepage(homepageRows, domainId).value)
  {
    match MappedHomepage(homepageRows, domainId)
    case None => None
    case Some(u) => Some(IncludeHomepage(t, crawlRows, shotRows, u))
  }

  /** One item: the row, its URL count (0 without URLs), and its homepage when asked for. */
  function Item(
    d: Domain, t: Tables, homepageRows: seq<Url>, crawlRows: seq<UrlCrawl>, shotRows: seq<Screenshot>, includeHomepage: bool)
    : DomainItem
  {
    DomainItem(d, UrlCount(t.urls, d.id),
               if includeHomepage then Some(HomepageEntry(t, homepageRows, crawlRows, shotRows, d.id)) else None)
  }

  /** `domains.map(...)`: one item per row, in row order. */
  function Items(
    page: seq<Domain>, t: Tables, homepageRows: seq<Url>, crawlRows: seq<UrlCrawl>, shotRows: seq<Screenshot>, includeHomepage: bool)
    : (r: seq<DomainItem>)
    ensures |r| == |page|
    ensures forall i :: 0 <= i < |page| ==> r[i] == Item(page[i], t, homepageRows, crawlRows, shotRows, includeHomepage)
  {
    seq(|page|, i requires 0 <= i < |page| => Item(page[i], t, homepageRows, crawlRows, shotRows, includeHomepage))
  }

  /**
   * The `domain.findMany` of a listing: the domains matching the search
   * after the cursor, in listing order, as many as the clamped limit allows.
   */
  function PageRows(rows: seq<Domain>, query: DomainQuery, parseDate: DateParser): (page: seq<Domain>)
    requires !query.cursor.Corrupt?
    ensures |page| <= 100
  {
    var w := MakeCreatedAtCursorWhere(ReadCursor(DecodeCursor(query.cursor).value, parseDate));
    Page(FilterHosts(rows, query.search), DomainKey, w, ClampLimit(query.limit, 1, 100, 20))
  }

  /**
   * `listDomains`. `rows` is the domain table in listing order (newest
   * first, then id descending), `homepageRows` the HOMEPAGE URLs as the
   * homepage query returns them, `crawlRows` and `shotRows` the crawl and
   * screenshot tables newest first. A cursor that is not JSON makes the
   * call throw; a full page carries the cursor of its last row.
   */
  function ListDomains(
    rows: seq<Domain>, t: Tables, homepageRows: seq<Url>, crawlRows: seq<UrlCrawl>, shotRows: seq<Screenshot>,
    query: DomainQuery, parseDate: DateParser)
    : (r: Result<DomainPage>)
    ensures r.Err? <==> query.cursor.Corrupt?
    ensures r.Ok? ==>
      var lim := ClampLimit(query.limit, 1, 100, 20);
      var page := PageRows(rows, query, parseDate);
      && |r.value.items| == |page|
      && (forall i :: 0 <= i < |page| ==>
            && r.value.items[i].domain == page[i]
            && r.value.items[i].urlsCount == UrlCount(t.urls, page[i].id)
            && r.value.items[i].homepage
                 == (if query.includeHomepage then Some(HomepageEntry(t, homepageRows, crawlRows, shotRows, page[i].id)) else None))
      && (r.value.nextCursor.Some? <==> |page| as real == lim && |page| > 0)
      && (r.value.nextCursor.Some? ==>
            r.value.nextCursor == EncodeCursor(CursorObject(Cursor(Some(page[|page| - 1].createdAt), page[|page| - 1].id))))
  {
    match DecodeCursor(query.cursor)
    case Err(e) => Err(e)
    case Ok(_) =>
      var lim := ClampLimit(query.limit, 1, 100, 20);
      var page := PageRows(rows, query, parseDate);
      var next := NextCursor(page, DomainKey, lim);
      Ok(DomainPage(Items(page, t, homepageRows, crawlRows, shotRows, query.includeHomepage),
                    if next.Some? then EncodeCursor(CursorObject(next.value)) else None))
  }

  /** The limit never goes above 100: a request for more gets 100 rows at most. */
  lemma ListDomainsAtMost100(
    rows: seq<Domain>, t: Tables, homepageRows: seq<Url>, crawlRows: seq<UrlCrawl>, shotRows: seq<Screenshot>,
    query: DomainQuery, parseDate: DateParser)
    requires ListDomains(rows, t, homepageRows, crawlRows, shotRows, query, parseDate).Ok?
    ensures |ListDomains(rows, t, homepageRows, crawlRows, shotRows, query, parseDate).value.items| <= 100
  {
    var lim := ClampLimit(query.limit, 1, 100, 20);
    assert 1.0 <= lim <= 100.0;
  }

  /** Without a cursor, a limit of `n` lists the first `n` matching domains. */
  lemma FirstPageRows(rows: seq<Domain>, n: nat, search: string, includeHomepage: bool, parseDate: DateParser)
    requires 1 <= n <= 100 && n <= |FilterHosts(rows, search)|
    ensures PageRows(rows, DomainQuery(Number(Finite(n as real)), Absent, search, includeHomepage), parseDate)
         == FilterHosts(rows, search)[..n]
  {
    var q := DomainQuery(Number(Finite(n as real)), Absent, search, includeHomepage);
    ClampLimitWithin(n, 1, 100, 20);
    assert MakeCreatedAtCursorWhere(ReadCursor(Null, parseDate)) == Everything;
    FirstPage(FilterHosts(rows, search), DomainKey, n);
  }

  /** With the cursor of the `n`-th matching domain, a limit of `n` lists the next `n` of them. */
  lemma NextPageRows(rows: seq<Domain>, n: nat, search: string, includeHomepage: bool, parseDate: DateParser)
    requires ListingOrder(rows, DomainKey)
    requires forall d :: d in rows ==> d.id != ""
    requires forall ms: int :: parseDate(Number(Finite(ms as real))) == Some(ms)
    requires 1 <= n <= 100 && n <= |FilterHosts(rows, search)|
    ensures var all := FilterHosts(rows, search);
      var wire := EncodeCursor(CursorObject(Cursor(Some(all[n - 1].createdAt), all[n - 1].id)));
      && wire.Some?
      && PageRows(rows, DomainQuery(Number(Finite(n as real)), Issued(wire.value), search, includeHomepage), parseDate)
         == Take(all[n..], n as real)
  {
    var all := FilterHosts(rows, search);
    var k := DomainKey(all[n - 1]);
    assert ListingOrder(all, DomainKey) by { FilterHostsOrdered(rows, search); }
    assert k.id != "" by { assert all[n - 1] in rows; }
    assert parseDate(Number(Finite(k.createdAt as real))) == Some(k.createdAt);
    PageAfterIssuedCursor(all, DomainKey, n, n as real, parseDate);
    var wire := EncodeCursor(CursorObject(Cursor(Some(k.createdAt), k.id)));
    var q := DomainQuery(Number(Finite(n as real)), Issued(wire.value), search, includeHomepage);
    ClampLimitWithin(n, 1, 100, 20);
    assert PageRows(rows, q, parseDate)
        == Page(all, DomainKey, MakeCreatedAtCursorWhere(ReadCursor(DecodeCursor(q.cursor).value, parseDate)), n as real);
  }

  /**
   * Paging through the domains with the issued cursors: when the first page
   * is full, the page requested with its cursor lists exactly the matching
   * domains after it, so no domain is skipped or listed twice.
   */
  lemma DomainPagesContinue(
    rows: seq<Domain>, t: Tables, homepageRows: seq<Url>, crawlRows: seq<UrlCrawl>, shotRows: seq<Screenshot>,
    n: nat, search: string, includeHomepage: bool, parseDate: DateParser)
    requires ListingOrder(rows, DomainKey)
    requires forall d :: d in rows ==> d.id != ""
    requires forall ms: int :: parseDate(Number(Finite(ms as real))) == Some(ms)
    requires 1 <= n <= 100 && n <= |FilterHosts(rows, search)|
    ensures var all := FilterHosts(rows, search);
      var first := ListDomains(rows, t, homepageRows, crawlRows, shotRows,
                               DomainQuery(Number(Finite(n as real)), Absent, search, includeHomepage), parseDate);
      && first.Ok? && first.value.nextCursor.Some?
      && |first.value.items| == n
      && (forall i :: 0 <= i < n ==> first.value.items[i].domain == all[i])
      && var second := ListDomains(rows, t, homepageRows, crawlRows, shotRows,
                                   DomainQuery(Number(Finite(n as real)), Issued(first.value.nextCursor.value), search, includeHomepage),
                                   parseDate);
      && second.Ok?
      && var rest := Take(all[n..], n as real);
      && |second.value.items| == |rest|
      && (forall i :: 0 <= i < |rest| ==> second.value.items[i].domain == rest[i])
  {
    FirstPageListed(rows, t, homepageRows, crawlRows, shotRows, n, search, includeHomepage, parseDate);
    NextPageListed(rows, t, homepageRows, crawlRows, shotRows, n, search, includeHomepage, parseDate);
  }

  /** Without a cursor, a full first page lists the first `n` matches and the cursor of the last one. */
  lemma FirstPageListed(
    rows: seq<Domain>, t: Tables, homepageRows: seq<Url>, crawlRows: seq<UrlCrawl>, shotRows: seq<Screenshot>,
    n: nat, search: string, includeHomepage: bool, parseDate: DateParser)
    requires 1 <= n <= 100 && n <= |FilterHosts(rows, search)|
    ensures var all := FilterHosts(rows, search);
      var first := ListDomains(rows, t, homepageRows, crawlRows, shotRows,
                               DomainQuery(Number(Finite(n as real)), Absent, search, includeHomepage), parseDate);
      && first.Ok?
      && first.value.nextCursor == EncodeCursor(CursorObject(Cursor(Some(all[n - 1].createdAt), all[n - 1].id)))
      && |first.value.items| == n
      && (forall i :: 0 <= i < n ==> first.value.items[i].domain == all[i])
  {
    var all := FilterHosts(rows, search);
    var q := DomainQuery(Number(Finite(n as real)), Absent, search, includeHomepage);
    ClampLimitWithin(n, 1, 100, 20);
    FirstPageRows(rows, n, search, includeHomepage, parseDate);
    var page := PageRows(rows, q, parseDate);
    assert page == all[..n];
    var first := ListDomains(rows, t, homepageRows, crawlRows, shotRows, q, parseDate);
    assert first.Ok?;
    assert page[n - 1] == all[n - 1];
    forall i | 0 <= i < n ensures first.value.items[i].domain == all[i] {
      assert page[i] == all[i];
    }
  }

  /** With the cursor of the `n`-th match, the page lists exactly the next `n` matches. */
  lemma NextPageListed(
    rows: seq<Domain>, t: Tables, homepageRows: seq<Url>, crawlRows: seq<UrlCrawl>, shotRows: seq<Screenshot>,
    n: nat, search: string, includeHomepage: bool, parseDate: DateParser)
    requires ListingOrder(rows, DomainKey)
    requires forall d :: d in rows ==> d.id != ""
    requires forall ms: int :: parseDate(Number(Finite(ms as real))) == Some(ms)
    requires 1 <= n <= 100 && n <= |FilterHosts(rows, search)|
    ensures var all := FilterHosts(rows, search);
      var wire := EncodeCursor(CursorObject(Cursor(Some(all[n - 1].createdAt), all[n - 1].id)));
      && wire.Some?
      && var second := ListDomains(rows, t, homepageRows, crawlRows, shotRows,
                                   DomainQuery(Number(Finite(n as real)), Issued(wire.value), search, includeHomepage),
                                   parseDate);
      && second.Ok?
      && var rest := Take(all[n..], n as real);
      && |second.value.items| == |rest|
      && (forall i :: 0 <= i < |rest| ==> second.value.items[i].domain == rest[i])
  {
    NextPageRows(rows, n, search, includeHomepage, parseDate);
  }


  // ---------------------------------------------------- derived selection

  /** What `getDerivedFromHomepage` answers. */
  datatype Derived = Derived(
    homepageUrl: Option<Url>, homepageLatestCrawl: Option<UrlCrawl>, primaryCategory: Option<Category>,
    categories: seq<Category>, technologies: seq<Technology>, screenshot: Option<Screenshot>)

  const NoDerived := Derived(None, None, None, [], [], None)

  predicate IsHomepage(domainId: Id, u: Url) {
    u.domainId == domainId && u.urlType == HOMEPAGE
  }

  /** `getHomepageUrl`: the first of the domain's HOMEPAGE rows in creation order. */
  function HomepageUrl(urlRows: seq<Url>, domainId: Id): (u: Option<Url>)
    ensures u.Some? ==> u.value in urlRows && IsHomepage(domainId, u.value)
    ensures u.Some? ==>
      exists k :: 0 <= k < |urlRows| && urlRows[k] == u.value
                  && forall j :: 0 <= j < k ==> !IsHomepage(domainId, urlRows[j])
    ensures u.None? ==> forall v :: v in urlRows ==> !IsHomepage(domainId, v)
  {
    var i := Lists.FirstWhere(urlRows, v => IsHomepage(domainId, v));
    if i.Some? then Some(urlRows[i.value]) else None
  }

  predicate CrawlOf(urlId: Id, onlySuccess: bool, c: UrlCrawl) {
    c.urlId == urlId && (!onlySuccess || c.status == SUCCESS)
  }

  /** `getLatestCrawlForUrl`: the first of the URL's crawls, newest first, with SUCCESS status when asked for. */
  function LatestCrawl(crawlRows: seq<UrlCrawl>, urlId: Id, onlySuccess: bool): (c: Option<UrlCrawl>)
    ensures c.Some? ==> c.value in crawlRows && CrawlOf(urlId, onlySuccess, c.value)
    ensures c.Some? ==>
      exists k :: 0 <= k < |crawlRows| && crawlRows[k] == c.value
                  && forall j :: 0 <= j < k ==> !CrawlOf(urlId, onlySuccess, crawlRows[j])
    ensures c.None? ==> forall x :: x in crawlRows ==> !CrawlOf(urlId, onlySuccess, x)
  {
    var i := Lists.FirstWhere(crawlRows, x => CrawlOf(urlId, onlySuccess, x));
    if i.Some? then Some(crawlRows[i.value]) else None
  }

  /** `confidence ?? 0` */
  function ConfidenceOrZero(a: Association): real {
    if a.confidence.Some? then a.confidence.value else 0.0
  }

  function CreatedAtScore(s: Screenshot): real {
    s.createdAt as real
  }

  /** The positions of the links whose slug names a stored row, in increasing order. */
  function LinkedAt(links: seq<Association>, slugs: set<string>): (idx: seq<nat>)
    ensures forall k :: 0 <= k < |idx| ==> idx[k] < |links| && links[idx[k]].slug in slugs
    ensures forall k, l :: 0 <= k < l < |idx| ==> idx[k] < idx[l]
    ensures forall j :: 0 <= j < |links| && links[j].slug in slugs ==> j in idx
    decreases |links|
  {
    if links == [] then []
    else
      var n := |links| - 1;
      var front := LinkedAt(links[..n], slugs);
      assert forall j :: 0 <= j < n ==> links[..n][j] == links[j];
      if links[n].slug in slugs then front + [n] else front
  }

  /**
   * The taxonomy rows an association list names, in link order; a dangling
   * slug is dropped (`filter(Boolean)`).
   */
  function Named<T>(links: seq<Association>, table: map<string, T>): (r: seq<T>)
    ensures var idx := LinkedAt(links, table.Keys);
      && |r| == |idx| <= |links|
      && forall k :: 0 <= k < |idx| ==> r[k] == table[links[idx[k]].slug]
  {
    var f := (a: Association) => if a.slug in table then Some(table[a.slug]) else None;
    Lists.KeepSomeAt(links, f, LinkedAt(links, table.Keys));
    Lists.KeepSome(links, f)
  }

  /**
   * `getDerivedFromHomepage`. `urlRows` is the URL table in creation order,
   * `crawlRows` the crawl table newest first, `shots` the screenshot table as
   * the database lists it. `preferStatus` defaults to SUCCESS when omitted.
   */
  function GetDerivedFromHomepage(
    t: Tables, urlRows: seq<Url>, crawlRows: seq<UrlCrawl>, shots: seq<Screenshot>, domainId: Id, preferStatus: JsValue)
    : (r: Derived)
    ensures HomepageUrl(urlRows, domainId).None? ==> r == NoDerived
    ensures r.homepageUrl == HomepageUrl(urlRows, domainId)
    ensures r.homepageUrl.Some? ==>
      r.homepageLatestCrawl == LatestCrawl(crawlRows, r.homepageUrl.value.id, preferStatus.Undefined? || preferStatus == Str("SUCCESS"))
    ensures r.homepageLatestCrawl.None? ==>
      r.primaryCategory.None? && r.categories == [] && r.technologies == [] && r.screenshot.None?
    // the crawl's linked categories and technologies, in link order, dangling links dropped
    ensures r.homepageLatestCrawl.Some? ==>
      var id := r.homepageLatestCrawl.value.id;
      && r.categories == Named(if id in t.crawlCategories then t.crawlCategories[id] else [], t.categories)
      && r.technologies == Named(if id in t.crawlTechnologies then t.crawlTechnologies[id] else [], t.technologies)
    // the primary category is the first association of highest confidence, an absent confidence counting as 0
    ensures r.homepageLatestCrawl.Some? ==>
      var links := if r.homepageLatestCrawl.value.id in t.crawlCategories then t.crawlCategories[r.homepageLatestCrawl.value.id] else [];
      && (links == [] ==> r.primaryCategory.None?)
      && (links != [] ==>
            var top := links[Lists.FirstBest(links, ConfidenceOrZero)];
            r.primaryCategory == (if top.slug in t.categories then Some(t.categories[top.slug]) else None))
    // the screenshot is the first of the crawl's screenshots with the latest creation time
    ensures r.homepageLatestCrawl.Some? ==>
      var own := FilterShots(shots, r.homepageLatestCrawl.value.id);
      && (own == [] ==> r.screenshot.None?)
      && (own != [] ==> r.screenshot == Some(own[Lists.FirstBest(own, CreatedAtScore)]))
  {
    match HomepageUrl(urlRows, domainId)
    case None => NoDerived
    case Some(homepage) =>
      var onlySuccess := preferStatus.Undefined? || preferStatus == Str("SUCCESS");
      var latest := LatestCrawl(crawlRows, homepage.id, onlySuccess);
      if latest.None? then Derived(Some(homepage), None, None, [], [], None)
      else
        var crawl := latest.value;
        var links := if crawl.id in t.crawlCategories then t.crawlCategories[crawl.id] else [];
        var techLinks := if crawl.id in t.crawlTechnologies then t.crawlTechnologies[crawl.id] else [];
        var primary :=
          if links == [] then None
          else
            var top := links[Lists.FirstBest(links, ConfidenceOrZero)];
            if top.slug in t.categories then Some(t.categories[top.slug]) else None;
        var own := FilterShots(shots, crawl.id);
        var shot := if own == [] then None else Some(own[Lists.FirstBest(own, CreatedAtScore)]);
        Derived(Some(homepage), Some(crawl), primary, Named(links, t.categories), Named(techLinks, t.technologies), shot)
  }

  function FilterShots(shots: seq<Screenshot>, crawlId: Id): (r: seq<Screenshot>)
    ensures forall s :: s in r <==> s in shots && s.crawlId == crawlId
    ensures Lists.Sublist(r, shots)
  {
    if shots == [] then []
    else if shots[0].crawlId == crawlId then [shots[0]] + FilterShots(shots[1..], crawlId)
    else FilterShots(shots[1..], crawlId)
  }
}
