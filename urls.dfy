/**
 * The URL service (`src/services/urls.js`): the keyed upsert of a domain's
 * URL on its normalised address, the filtered listing of a domain's URLs,
 * and the cursor-paged listing of a URL's crawls. The address normaliser it
 * imports, `normalizeUrlForDomainHost`, is not defined by the normalisation
 * module, so the model takes it as an argument that may fail.
 */
module Urls {
  import opened Wrappers
  import opened Js
  import opened Store
  import opened Normalize
  import opened Pagination
  import Lists

  const DomainNotFound := "Domain not found"
  const InvalidUrl := "Invalid URL"

  /** `normalizeUrlForDomainHost(url, host)`: the normalised address, or the error it throws. */
  type HostNormalizer = (JsValue, string) -> Result<UrlInput>

  /** The request body: `type` and `isCanonical` are `None` when absent or null. */
  datatype UrlPayload = UrlPayload(url: JsValue, urlType: Option<UrlType>, isCanonical: Option<bool>)

  /** `badRequest(error?.message || 'Invalid URL')` */
  function InvalidUrlFailure(f: Failure): (e: Failure)
    ensures e.BadRequest?
    ensures f.message != "" ==> e.message == f.message
    ensures f.message == "" ==> e.message == InvalidUrl
  {
    BadRequest(if f.message != "" then f.message else InvalidUrl)
  }

  function Over<T>(given: Option<T>, current: T): T {
    if given.Some? then given.value else current
  }

  /**
   * The row `url.upsert` leaves under the normalised address: the existing
   * row with only the given `type` and `isCanonical` changed, or a new row
   * with `type` OTHER and `isCanonical` false unless given.
   */
  function UpsertedUrl(
    urls: map<Id, Url>, index: map<string, Id>, domainId: Id, n: UrlInput, input: UrlPayload,
    newId: Id, now: Time)
    : (u: Url)
    requires UrlIndexed(urls, index)
    ensures u.normalizedUrl == n.normalizedUrl
    ensures n.normalizedUrl in index ==>
      var found := urls[index[n.normalizedUrl]];
      && u.id == found.id && u.domainId == found.domainId && u.path == found.path && u.createdAt == found.createdAt
      && (input.urlType.Some? ==> u.urlType == input.urlType.value)
      && (input.urlType.None? ==> u.urlType == found.urlType)
      && (input.isCanonical.Some? ==> u.isCanonical == input.isCanonical.value)
      && (input.isCanonical.None? ==> u.isCanonical == found.isCanonical)
    ensures n.normalizedUrl !in index ==>
      && u.id == newId && u.domainId == domainId && u.path == n.path && u.createdAt == now
      && u.urlType == (if input.urlType.Some? then input.urlType.value else OTHER)
      && u.isCanonical == (input.isCanonical == Some(true))
  {
    if n.normalizedUrl in index then
      var found := urls[index[n.normalizedUrl]];
      found.(urlType := Over(input.urlType, found.urlType), isCanonical := Over(input.isCanonical, found.isCanonical))
    else
      Url(newId, domainId, n.path, n.normalizedUrl, Over(input.urlType, OTHER), Over(input.isCanonical, false), now)
  }

  /** An address names at most one row. */
  lemma OneRowPerAddress(urls: map<Id, Url>, index: map<string, Id>, a: Id, b: Id)
    requires UrlIndexed(urls, index) && a in urls && b in urls
    requires urls[a].normalizedUrl == urls[b].normalizedUrl
    ensures a == b
  {
  }

  /**
   * Repeating an upsert with the same address and payload finds the row the
   * first one wrote and changes nothing: no second row is created.
   */
  lemma UpsertRepeated(
    urls: map<Id, Url>, index: map<string, Id>, domainId: Id, n: UrlInput, input: UrlPayload,
    id1: Id, t1: Time, id2: Id, t2: Time)
    requires UrlIndexed(urls, index)
    requires n.normalizedUrl !in index ==> id1 !in urls
    ensures var u := UpsertedUrl(urls, index, domainId, n, input, id1, t1);
      var urls1, index1 := urls[u.id := u], index[u.normalizedUrl := u.id];
      && UrlIndexed(urls1, index1)
      && UpsertedUrl(urls1, index1, domainId, n, input, id2, t2) == u
      && urls1.Keys == urls.Keys + {u.id}
  {
    var u := UpsertedUrl(urls, index, domainId, n, input, id1, t1);
    PutUrlKeepsIndexed(urls, index, u);
  }

  /**
   * `upsertUrlForDomain`: an unknown domain and an address the normaliser
   * refuses fail before any write; otherwise the row for the normalised
   * address is created or updated.
   */
  method UpsertUrlForDomain(db: Db, domainId: Id, input: UrlPayload, normalize: HostNormalizer, newId: Id, now: Time)
    returns (r: Result<Url>)
    requires db.Valid() && newId !in db.urls
    modifies db
    ensures db.Valid()
    ensures domainId !in old(db.domains) ==> r == Err(NotFound(DomainNotFound))
    ensures domainId in old(db.domains) && normalize(input.url, old(db.domains)[domainId].host).Err? ==>
      r == Err(InvalidUrlFailure(normalize(input.url, old(db.domains)[domainId].host).error))
    ensures r.Err? ==> db.Snapshot() == old(db.Snapshot())
    ensures r.Ok? <==> domainId in old(db.domains) && normalize(input.url, old(db.domains)[domainId].host).Ok?
    ensures r.Ok? ==>
      && domainId in old(db.domains) && normalize(input.url, old(db.domains)[domainId].host).Ok?
      && r.value == UpsertedUrl(old(db.urls), old(db.urlByNormalized), domainId,
                                normalize(input.url, old(db.domains)[domainId].host).value, input, newId, now)
      && db.Snapshot() == old(db.Snapshot()).(urls := old(db.urls)[r.value.id := r.value],
                                               urlByNormalized := old(db.urlByNormalized)[r.value.normalizedUrl := r.value.id])
      && db.urls == old(db.urls)[r.value.id := r.value]
  {
    if domainId !in db.domains {
      return Err(NotFound(DomainNotFound));
    }
    var normalized := normalize(input.url, db.domains[domainId].host);
    if normalized.Err? {
      return Err(InvalidUrlFailure(normalized.error));
    }
    var u := UpsertedUrl(db.urls, db.urlByNormalized, domainId, normalized.value, input, newId, now);
    db.PutUrl(u);
    r := Ok(u);
  }

  // ------------------------------------------------------------ listings

  /**
   * `listUrlsForDomain`. `rows` is the table as the database orders it (by
   * type, then oldest first); the type filter applies only when a type is
   * given, and a take only when a limit is given.
   */
  function ListUrlsForDomain(
    domains: map<Id, Domain>, rows: seq<Url>, domainId: Id, urlType: Option<UrlType>, limit: JsValue)
    : (r: Result<seq<Url>>)
    ensures domainId !in domains <==> r == Err(NotFound(DomainNotFound))
    ensures r.Ok? ==>
      var all := FilterUrls(rows, domainId, urlType);
      && |r.value| <= |all| && r.value == all[..|r.value|]
      && (!Truthy(limit) ==> r.value == all)
      && (Truthy(limit) ==> |r.value| as real <= ClampLimit(limit, 1, 200, 50)
                            && (|r.value| < |all| ==> ClampLimit(limit, 1, 200, 50) < |r.value| as real + 1.0))
  {
    if domainId !in domains then Err(NotFound(DomainNotFound))
    else
      var all := FilterUrls(rows, domainId, urlType);
      Ok(if Truthy(limit) then Take(all, ClampLimit(limit, 1, 200, 50)) else all)
  }

  predicate UrlListed(u: Url, domainId: Id, urlType: Option<UrlType>) {
    u.domainId == domainId && (urlType.None? || u.urlType == urlType.value)
  }

  function FilterUrls(rows: seq<Url>, domainId: Id, urlType: Option<UrlType>): (r: seq<Url>)
    ensures |r| <= |rows|
    ensures forall u :: u in r <==> u in rows && UrlListed(u, domainId, urlType)
    ensures Lists.Sublist(r, rows)
  {
    if rows == [] then []
    else if UrlListed(rows[0], domainId, urlType) then [rows[0]] + FilterUrls(rows[1..], domainId, urlType)
    else FilterUrls(rows[1..], domainId, urlType)
  }

  /** A crawl's place in the listing: its creation time, then its id. */
  function CrawlKey(c: UrlCrawl): Key {
    Key(c.createdAt, c.id)
  }

  predicate CrawlListed(c: UrlCrawl, urlId: Id, status: Option<Status>) {
    c.urlId == urlId && (status.None? || c.status == status.value)
  }

  function FilterCrawls(rows: seq<UrlCrawl>, urlId: Id, status: Option<Status>): (r: seq<UrlCrawl>)
    ensures |r| <= |rows|
    ensures forall c :: c in r <==> c in rows && CrawlListed(c, urlId, status)
    ensures Lists.Sublist(r, rows)
  {
    if rows == [] then []
    else if CrawlListed(rows[0], urlId, status) then [rows[0]] + FilterCrawls(rows[1..], urlId, status)
    else FilterCrawls(rows[1..], urlId, status)
  }

  /** Filtering keeps the listing order. */
  lemma {:induction false} FilterCrawlsOrdered(rows: seq<UrlCrawl>, urlId: Id, status: Option<Status>)
    requires ListingOrder(rows, CrawlKey)
    ensures ListingOrder(FilterCrawls(rows, urlId, status), CrawlKey)
  {
    if rows != [] {
      ListingOrderTail(rows, CrawlKey);
      FilterCrawlsOrdered(rows[1..], urlId, status);
      var rest := FilterCrawls(rows[1..], urlId, status);
      if CrawlListed(rows[0], urlId, status) {
        var r := [rows[0]] + rest;
        forall i, j | 0 <= i < j < |r| ensures KeyLt(CrawlKey(r[j]), CrawlKey(r[i])) {
          assert r[j] == rest[j - 1] && r[j] in rows[1..];
          var k :| 0 <= k < |rows[1..]| && rows[1..][k] == r[j];
          assert rows[k + 1] == r[j];
          if i > 0 {
            assert r[i] == rest[i - 1];
          }
        }
      }
    }
  }

  datatype CrawlPage = CrawlPage(items: seq<UrlCrawl>, nextCursor: Option<Wire>)

  /**
   * `listUrlCrawls`. `rows` is the crawl table in listing order (newest
   * first, then id descending). A cursor that is not JSON makes the call
   * throw; a full page carries the cursor of its last row.
   */
  function ListUrlCrawls(
    rows: seq<UrlCrawl>, urlId: Id, limit: JsValue, cursor: CursorParam, status: Option<Status>,
    parseDate: DateParser)
    : (r: Result<CrawlPage>)
    ensures r.Err? <==> cursor.Corrupt?
    ensures r.Ok? ==>
      var w := MakeCreatedAtCursorWhere(ReadCursor(DecodeCursor(cursor).value, parseDate));
      var lim := ClampLimit(limit, 1, 200, 20);
      && r.value.items == Page(FilterCrawls(rows, urlId, status), CrawlKey, w, lim)
      && (r.value.nextCursor.Some? <==> |r.value.items| as real == lim && |r.value.items| > 0)
  {
    match DecodeCursor(cursor)
    case Err(e) => Err(e)
    case Ok(v) =>
      var w := MakeCreatedAtCursorWhere(ReadCursor(v, parseDate));
      var lim := ClampLimit(limit, 1, 200, 20);
      var items := Page(FilterCrawls(rows, urlId, status), CrawlKey, w, lim);
      var next := NextCursor(items, CrawlKey, lim);
      Ok(CrawlPage(items, if next.Some? then EncodeCursor(CursorObject(next.value)) else None))
  }

  /**
   * Paging through a URL's crawls with the issued cursors: when the first
   * page is full, the page requested with its cursor lists exactly the
   * matching crawls after it, so no crawl is skipped or listed twice.
   */
  lemma CrawlPagesContinue(
    rows: seq<UrlCrawl>, urlId: Id, n: nat, status: Option<Status>, parseDate: DateParser)
    requires ListingOrder(rows, CrawlKey)
    requires forall c :: c in rows ==> c.id != ""
    requires forall t: int :: parseDate(Number(Finite(t as real))) == Some(t)
    requires 1 <= n <= 200 && n <= |FilterCrawls(rows, urlId, status)|
    ensures var first := ListUrlCrawls(rows, urlId, Number(Finite(n as real)), Absent, status, parseDate);
      && first.Ok? && first.value.nextCursor.Some?
      && first.value.items == FilterCrawls(rows, urlId, status)[..n]
      && var second := ListUrlCrawls(rows, urlId, Number(Finite(n as real)), Issued(first.value.nextCursor.value), status, parseDate);
      && second.Ok?
      && second.value.items == Take(FilterCrawls(rows, urlId, status)[n..], n as real)
  {
    var all := FilterCrawls(rows, urlId, status);
    FilterCrawlsOrdered(rows, urlId, status);
    var lim := ClampLimit(Number(Finite(n as real)), 1, 200, 20);
    assert lim == n as real;
    assert MakeCreatedAtCursorWhere(ReadCursor(Null, parseDate)) == Everything;
    FirstPage(all, CrawlKey, n);
    var last := CrawlKey(all[n - 1]);
    assert all[n - 1] in rows;
    IssuedCursorFilter(last, parseDate);
    SelectAfterCursor(all, CrawlKey, n - 1);
  }
}
