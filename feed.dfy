/**
 * The feed service (`src/services/feed.js`): the newest domains, each with
 * its homepage, the homepage's latest crawl, that crawl's latest screenshot
 * and its category of highest confidence. The three queries are inputs:
 * `domainRows` is the domain table newest first, `homepageRows` the HOMEPAGE
 * URLs of the page's domains in the query's order (domain, canonical first,
 * oldest first), `crawlRows` the crawl table newest first and `shots` the
 * screenshot table.
 */
module Feed {
  import opened Wrappers
  import opened Js
  import opened Store
  import Lists
  import Pagination
  import Domains

  /** The homepage part of a feed item. */
  datatype Homepage = Homepage(
    url: Url, latestCrawl: Option<UrlCrawl>, screenshot: Option<Screenshot>,
    category: Option<Category>, categoryConfidence: Option<real>)

  datatype FeedItem = FeedItem(domain: Domain, homepage: Option<Homepage>)

  /** `clampLimit(query.limit, { max: 100, fallback: 20 })`, the minimum being 1. */
  function FeedLimit(limit: JsValue): real {
    Pagination.ClampLimit(limit, 1, 100, 20)
  }

  /** The page of domains: at most 100, 20 when no usable limit is given, never empty when a domain exists. */
  lemma FeedPageSize(domainRows: seq<Domain>, limit: JsValue)
    ensures var page := Pagination.Take(domainRows, FeedLimit(limit));
      && |page| <= 100
      && page == domainRows[..|page|]
      && (|domainRows| > 0 ==> |page| >= 1)
      && (!ToNumber(limit).Finite? ==> |page| == if |domainRows| <= 20 then |domainRows| else 20)
  {
  }

  /** The row the map keeps for a domain: its first row in query order. */
  function FirstHomepage(rows: seq<Url>, domainId: Id): (u: Option<Url>)
    ensures u.Some? ==> u.value in rows && u.value.domainId == domainId
    ensures u.None? ==> forall v :: v in rows ==> v.domainId != domainId
  {
    var i := Lists.FirstWhere(rows, (v: Url) => v.domainId == domainId);
    if i.Some? then Some(rows[i.value]) else None
  }

  /** One more row settles a domain only when the domain had no row yet. */
  lemma FirstHomepageSnoc(rows: seq<Url>, u: Url, domainId: Id)
    ensures FirstHomepage(rows + [u], domainId) ==
      if FirstHomepage(rows, domainId).Some? then FirstHomepage(rows, domainId)
      else if u.domainId == domainId then Some(u) else None
  {
    Lists.FirstWhereSnoc(rows, u, (v: Url) => v.domainId == domainId);
  }

  /** A later row of a domain never replaces an earlier one. */
  lemma FirstHomepageIsEarliest(rows: seq<Url>, i: nat)
    requires i < |rows|
    requires forall j :: 0 <= j < i ==> rows[j].domainId != rows[i].domainId
    ensures FirstHomepage(rows, rows[i].domainId) == Some(rows[i])
  {
    var k := Lists.FirstWhere(rows, (v: Url) => v.domainId == rows[i].domainId);
    assert k.Some? && k.value <= i;
  }

  /** The map loop: the first row of each domain wins. */
  method HomepageByDomain(rows: seq<Url>) returns (m: map<Id, Url>)
    ensures forall d :: d in m <==> FirstHomepage(rows, d).Some?
    ensures forall d :: d in m ==> FirstHomepage(rows, d) == Some(m[d])
  {
    m := map[];
    var i := 0;
    while i < |rows|
      invariant 0 <= i <= |rows|
      invariant forall d :: d in m <==> FirstHomepage(rows[..i], d).Some?
      invariant forall d :: d in m ==> FirstHomepage(rows[..i], d) == Some(m[d])
    {
      forall d ensures FirstHomepage(rows[..i + 1], d) ==
        if FirstHomepage(rows[..i], d).Some? then FirstHomepage(rows[..i], d)
        else if rows[i].domainId == d then Some(rows[i]) else None
      {
        assert rows[..i + 1] == rows[..i] + [rows[i]];
        FirstHomepageSnoc(rows[..i], rows[i], d);
      }
      if rows[i].domainId !in m {
        m := m[rows[i].domainId := rows[i]];
      }
      i := i + 1;
    }
    assert rows[..i] == rows;
  }

  /** The categories linked to a crawl, in link order. */
  function LinksOf(t: Tables, crawlId: Id): seq<Association> {
    if crawlId in t.crawlCategories then t.crawlCategories[crawlId] else []
  }

  /**
   * The homepage part of an item: the URL's newest crawl of any status, that
   * crawl's newest screenshot, and the first of its categories with the
   * highest confidence (an absent confidence counting as 0) with that
   * link's confidence.
   */
  function HomepageOf(t: Tables, crawlRows: seq<UrlCrawl>, shots: seq<Screenshot>, u: Url): (h: Homepage)
    ensures h.url == u && h.latestCrawl == Domains.LatestCrawl(crawlRows, u.id, false)
    ensures h.latestCrawl.None? ==> h.screenshot.None? && h.category.None? && h.categoryConfidence.None?
    ensures h.latestCrawl.Some? ==>
      var c := h.latestCrawl.value;
      // the screenshot is one of the crawl's own, and none of them is newer
      && (h.screenshot.None? <==> forall s :: s in shots ==> s.crawlId != c.id)
      && (h.screenshot.Some? ==>
            && h.screenshot.value in shots && h.screenshot.value.crawlId == c.id
            && forall s :: s in shots && s.crawlId == c.id ==> s.createdAt <= h.screenshot.value.createdAt)
      // the category and its confidence come from one link of highest confidence
      && (LinksOf(t, c.id) == [] ==> h.category.None? && h.categoryConfidence.None?)
      && (LinksOf(t, c.id) != [] ==>
            exists k :: 0 <= k < |LinksOf(t, c.id)|
              && h.categoryConfidence == LinksOf(t, c.id)[k].confidence
              && h.category == (if LinksOf(t, c.id)[k].slug in t.categories
                                then Some(t.categories[LinksOf(t, c.id)[k].slug]) else None)
              && (forall j :: 0 <= j < |LinksOf(t, c.id)| ==>
                    Domains.ConfidenceOrZero(LinksOf(t, c.id)[j]) <= Domains.ConfidenceOrZero(LinksOf(t, c.id)[k]))
              && (forall j :: 0 <= j < k ==>
                    Domains.ConfidenceOrZero(LinksOf(t, c.id)[j]) < Domains.ConfidenceOrZero(LinksOf(t, c.id)[k])))
  {
    var latest := Domains.LatestCrawl(crawlRows, u.id, false);
    if latest.None? then Homepage(u, None, None, None, None)
    else
      var crawl := latest.value;
      var own := Domains.FilterShots(shots, crawl.id);
      var shot := if own == [] then None else Some(own[Lists.FirstBest(own, Domains.CreatedAtScore)]);
      ShotIsNewest(own, shots, crawl.id);
      var links := LinksOf(t, crawl.id);
      if links == [] then Homepage(u, latest, shot, None, None)
      else
        var top := links[Lists.FirstBest(links, Domains.ConfidenceOrZero)];
        Homepage(u, latest, shot, if top.slug in t.categories then Some(t.categories[top.slug]) else None, top.confidence)
  }

  /** The screenshot picked among a crawl's own is not older than any other of them. */
  lemma ShotIsNewest(own: seq<Screenshot>, shots: seq<Screenshot>, crawlId: Id)
    requires own == Domains.FilterShots(shots, crawlId)
    ensures own == [] <==> forall s :: s in shots ==> s.crawlId != crawlId
    ensures own != [] ==>
      var b := own[Lists.FirstBest(own, Domains.CreatedAtScore)];
      forall s :: s in shots && s.crawlId == crawlId ==> s.createdAt <= b.createdAt
  {
    if own != [] {
      var b := Lists.FirstBest(own, Domains.CreatedAtScore);
      forall s | s in shots && s.crawlId == crawlId ensures s.createdAt <= own[b].createdAt {
        var j :| 0 <= j < |own| && own[j] == s;
        assert Domains.CreatedAtScore(own[j]) <= Domains.CreatedAtScore(own[b]);
      }
    } else {
      forall s | s in shots ensures s.crawlId != crawlId {
        assert s !in own;
      }
    }
  }

  /** The item of one domain: its homepage part exactly when it has a HOMEPAGE row. */
  function ItemOf(t: Tables, homepageRows: seq<Url>, crawlRows: seq<UrlCrawl>, shots: seq<Screenshot>, d: Domain)
    : (item: FeedItem)
    ensures item.domain == d
    ensures item.homepage.None? <==> forall v :: v in homepageRows ==> v.domainId != d.id
    ensures item.homepage.Some? ==> item.homepage.value.url in homepageRows && item.homepage.value.url.domainId == d.id
  {
    match FirstHomepage(homepageRows, d.id)
    case None => FeedItem(d, None)
    case Some(u) => FeedItem(d, Some(HomepageOf(t, crawlRows, shots, u)))
  }

  /**
   * `latestSites`: one item per domain of the page, in page order; each
   * domain's homepage is its first row in `homepageRows`.
   */
  method LatestSites(
    t: Tables, domainRows: seq<Domain>, homepageRows: seq<Url>, crawlRows: seq<UrlCrawl>, shots: seq<Screenshot>,
    limit: JsValue)
    returns (items: seq<FeedItem>)
    ensures var page := Pagination.Take(domainRows, FeedLimit(limit));
      && |items| == |page|
      && forall i :: 0 <= i < |items| ==> items[i] == ItemOf(t, homepageRows, crawlRows, shots, page[i])
  {
    var domains := Pagination.Take(domainRows, FeedLimit(limit));
    var homepageByDomainId := HomepageByDomain(homepageRows);
    items := seq(|domains|, i requires 0 <= i < |domains| =>
      var domain := domains[i];
      if domain.id in homepageByDomainId
      then FeedItem(domain, Some(HomepageOf(t, crawlRows, shots, homepageByDomainId[domain.id])))
      else FeedItem(domain, None));
  }
}
