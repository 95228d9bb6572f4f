/**
 * `ingestDomain` of the ingestion service (`src/services/ingestion.js`) up
 * to the list of URLs to crawl: the option decisions, the technology
 * discovery, the selection of the pages found on the domain's host, and
 * the URL upserts with the homepage added when none was found. The remote
 * services are parameters: what they returned, or that they rejected and
 * with which message.
 */
module IngestionPipeline {
  import opened Wrappers
  import opened Text
  import opened Js
  import opened Store
  import Normalize
  import Urls
  import Crawls
  import Limiter
  import Lists
  import opened IngestionNormalize

  // ------------------------------------------------------------- options

  /** `Math.max(lo, Math.min(n, hi))`: NaN passes through, the infinities land on the bounds. */
  function MinMax(n: Num, lo: real, hi: real): (c: Num)
    requires lo <= hi
    ensures c.NaN? <==> n.NaN?
    ensures c.Finite? ==> lo <= c.r <= hi
    ensures n.Finite? && lo <= n.r <= hi ==> c == n
    ensures n == Infinity(true) ==> c == Finite(hi)
  {
    match n
    case NaN => NaN
    case Infinity(positive) => Finite(if positive then hi else lo)
    case Finite(x) => Finite(if x < lo then lo else if x > hi then hi else x)
  }

  /** `Math.max(1, Math.min(Number(options.maxUrls ?? 20), 200))` */
  function MaxUrls(options: JsValue): Num {
    MinMax(ToNumber(Coalesce(Get(options, "maxUrls"), Number(Finite(20.0)))), 1.0, 200.0)
  }

  /** `Math.max(1, Math.min(Number(options.urlConcurrency ?? 3), 20))` */
  function UrlConcurrency(options: JsValue): Num {
    MinMax(ToNumber(Coalesce(Get(options, "urlConcurrency"), Number(Finite(3.0)))), 1.0, 20.0)
  }

  /** The workers the pool runs at once: between 1 and 20, and 1 when the option is not a number. */
  lemma UrlConcurrencyBounds(options: JsValue)
    ensures var c := Limiter.Concurrency(Number(UrlConcurrency(options)));
      && 1.0 <= c <= 20.0
      && (UrlConcurrency(options).NaN? ==> c == 1.0)
      && (Get(options, "urlConcurrency").Undefined? ==> c == 3.0)
  {
  }

  /**
   * `slice(0, end)`: the end is truncated toward zero, NaN counting as 0; a
   * negative end counts back from the length; the result is capped to
   * [0, length].
   */
  function SliceEnd(end: Num, length: nat): (k: nat)
    ensures k <= length
    ensures end.NaN? ==> k == 0
    ensures end.Finite? && end.r >= 0.0 ==> k == if (end.r.Floor as real) < (length as real) then end.r.Floor else length
    ensures end.Finite? && end.r < 0.0 ==> k == if (-end.r).Floor < length then length - (-end.r).Floor else 0
    ensures end.Infinity? ==> k == if end.positive then length else 0
  {
    match end
    case NaN => 0
    case Infinity(positive) => if positive then length else 0
    case Finite(x) =>
      if x < 0.0 then (if (-x).Floor < length then length - (-x).Floor else 0)
      else if x.Floor < length then x.Floor else length
  }

  /** `options.isShopify` counts only when it is exactly `true` or `false`. */
  function ShopifyOption(options: JsValue): (o: Option<bool>)
    ensures o.Some? <==> Get(options, "isShopify").Bool?
  {
    match Get(options, "isShopify")
    case Bool(b) => Some(b)
    case _ => None
  }

  function Scope(options: JsValue): TechScope {
    NormalizeTechnologiesScope(Get(Get(options, "technologies"), "scope"))
  }

  /** Detection runs when technologies are shared from the homepage, or when Shopify is not decided. */
  predicate ShouldDetect(scope: TechScope, isShopify: Option<bool>) {
    scope == HOMEPAGE_SCOPE || isShopify.None?
  }

  /** What the remote call returned, or that it rejected with a message (`""` when it had none). */
  datatype Settled = Fulfilled(value: JsValue) | Rejected(message: string)

  /** What the discovery step leaves behind: its technologies, its error, and the Shopify flag. */
  datatype Discovery = Discovery(technologies: seq<Tech>, error: Option<string>, isShopify: Option<bool>)

  /** The discovery step; `detection` is consulted only when detection runs. */
  function Discover(scope: TechScope, isShopify: Option<bool>, detection: Settled): (d: Discovery)
    // an explicit option always wins
    ensures isShopify.Some? ==> d.isShopify == isShopify
    // the pages finder never sees an undecided flag
    ensures d.isShopify.Some?
    ensures !ShouldDetect(scope, isShopify) ==> d == Discovery([], None, isShopify)
    ensures ShouldDetect(scope, isShopify) && detection.Rejected? ==>
      d.technologies == [] && d.error == Some(detection.message) && (isShopify.None? ==> d.isShopify == Some(false))
    ensures ShouldDetect(scope, isShopify) && detection.Fulfilled? ==>
      && d.technologies == NormalizeTechnologiesResult(detection.value) && d.error.None?
      && (isShopify.None? ==> d.isShopify == Some(IsShopifyFromTechnologies(d.technologies)))
  {
    if !ShouldDetect(scope, isShopify) then Discovery([], None, isShopify)
    else match detection
      case Rejected(m) => Discovery([], Some(m), if isShopify.None? then Some(false) else isShopify)
      case Fulfilled(raw) =>
        var techs := NormalizeTechnologiesResult(raw);
        Discovery(techs, None, if isShopify.None? then Some(IsShopifyFromTechnologies(techs)) else isShopify)
  }

  /** The technologies passed to the pages finder: `undefined` when none are left. */
  function PagesFinderTechnologies(d: Discovery): (slugs: Option<seq<string>>)
    ensures slugs.Some? ==> 0 < |slugs.value| <= 50
    ensures slugs.None? <==> |PickTechnologiesForPagesFinder(d.technologies)| == 0
  {
    var picked := PickTechnologiesForPagesFinder(d.technologies);
    if |picked| > 0 then Some(picked) else None
  }

  // ------------------------------------------------------- page selection

  /** `new URL(p.url)` throws this for an address it cannot parse. */
  const InvalidUrl := "Invalid URL"

  predicate OnDomain(parse: Normalize.UrlParser, domainHost: string, p: Page) {
    parse(p.url).Some? && StripWww(parse(p.url).value.host) == StripWww(domainHost)
  }

  /** `pages.filter(...)`: the pages on the domain's host, in order; an unparsable address throws. */
  function SameHost(pages: seq<Page>, domainHost: string, parse: Normalize.UrlParser): (r: Result<seq<Page>>)
    ensures r.Err? ==> r == Err(Thrown(InvalidUrl))
    ensures r.Ok? ==> |r.value| <= |pages|
  {
    if pages == [] then Ok([])
    else
      var rest := SameHost(pages[1..], domainHost, parse);
      if parse(pages[0].url).None? then Err(Thrown(InvalidUrl))
      else if rest.Err? then rest
      else if OnDomain(parse, domainHost, pages[0]) then Ok([pages[0]] + rest.value)
      else rest
  }

  /** The filter throws exactly when some address, wherever it is, does not parse. */
  lemma {:induction false} SameHostThrows(pages: seq<Page>, domainHost: string, parse: Normalize.UrlParser)
    ensures SameHost(pages, domainHost, parse).Err? <==> exists i :: 0 <= i < |pages| && parse(pages[i].url).None?
  {
    if pages != [] {
      SameHostThrows(pages[1..], domainHost, parse);
      assert forall i :: 1 <= i < |pages| ==> pages[i] == pages[1..][i - 1];
      if parse(pages[0].url).None? {
        assert 0 < |pages|;
      }
    }
  }

  /** When the filter does not throw, it keeps exactly the pages on the domain's host. */
  lemma {:induction false} SameHostKeeps(pages: seq<Page>, domainHost: string, parse: Normalize.UrlParser)
    requires SameHost(pages, domainHost, parse).Ok?
    ensures forall p :: p in SameHost(pages, domainHost, parse).value <==> p in pages && OnDomain(parse, domainHost, p)
  {
    if pages != [] {
      SameHostKeeps(pages[1..], domainHost, parse);
      assert pages == [pages[0]] + pages[1..];
    }
  }

  /** The pages kept for crawling: the ones on the domain, in order, cut to `maxUrls`. */
  function SelectPages(pages: seq<Page>, domainHost: string, parse: Normalize.UrlParser, maxUrls: Num)
    : (r: Result<seq<Page>>)
    ensures r.Err? <==> exists i :: 0 <= i < |pages| && parse(pages[i].url).None?
    ensures r.Err? ==> r == Err(Thrown(InvalidUrl))
    ensures r.Ok? ==>
      && SameHost(pages, domainHost, parse).Ok?
      && |r.value| <= |SameHost(pages, domainHost, parse).value|
      && r.value == SameHost(pages, domainHost, parse).value[..|r.value|]
    // exactly the same-host pages up to the `slice` end `maxUrls` gives
    ensures r.Ok? ==>
      var kept := SameHost(pages, domainHost, parse).value;
      r.value == kept[..SliceEnd(maxUrls, |kept|)]
    ensures r.Ok? && maxUrls.Finite? && maxUrls.r >= 0.0 ==> |r.value| <= maxUrls.r.Floor
    // a `maxUrls` that is not a number keeps nothing
    ensures r.Ok? && maxUrls.NaN? ==> r.value == []
  {
    var kept := SameHost(pages, domainHost, parse);
    SameHostThrows(pages, domainHost, parse);
    if kept.Err? then Err(kept.error)
    else Ok(kept.value[..SliceEnd(maxUrls, |kept.value|)])
  }

  /** Every page kept is one of the discovered pages, on the domain's host. */
  lemma SelectedOnDomain(pages: seq<Page>, domainHost: string, parse: Normalize.UrlParser, maxUrls: Num, p: Page)
    requires SelectPages(pages, domainHost, parse, maxUrls).Ok?
    requires p in SelectPages(pages, domainHost, parse, maxUrls).value
    ensures p in pages && OnDomain(parse, domainHost, p)
  {
    SameHostKeeps(pages, domainHost, parse);
    var kept := SameHost(pages, domainHost, parse).value;
    var r := SelectPages(pages, domainHost, parse, maxUrls).value;
    var i :| 0 <= i < |r| && r[i] == p;
    assert p == kept[i];
  }

  /** An unparsable address anywhere in the list throws, even one past the cut. */
  lemma InvalidUrlPastTheCut(pages: seq<Page>, domainHost: string, parse: Normalize.UrlParser)
    requires |pages| == 2 && parse(pages[0].url).Some? && OnDomain(parse, domainHost, pages[0])
    requires parse(pages[1].url).None?
    ensures SelectPages(pages, domainHost, parse, Finite(1.0)) == Err(Thrown(InvalidUrl))
  {
  }

  // ---------------------------------------------------------- URL upserts

  /** The payload a kept page with a URL type is upserted with: that type, canonical exactly for a homepage. */
  function PagePayload(p: Page): (input: Urls.UrlPayload)
    requires GuessUrlType(p.kind).Some?
    ensures input.url == Str(p.url) && input.urlType == GuessUrlType(p.kind)
    ensures input.isCanonical == Some(GuessUrlType(p.kind) == Some(HOMEPAGE))
  {
    var t := GuessUrlType(p.kind).value;
    Urls.UrlPayload(Str(p.url), Some(t), Some(t == HOMEPAGE))
  }

  /** The database client's refusal of a `type` argument that is not a URL type. */
  const InvalidTypeArgument := "Invalid value for argument `type`. Expected UrlType."

  /** The identifiers handed out for new rows: all distinct, none in use yet. */
  ghost predicate FreshIds(newIds: nat -> Id, used: set<Id>) {
    && (forall i :: newIds(i) !in used)
    && (forall i, j :: i != j ==> newIds(i) != newIds(j))
  }

  /** An upsert either finds the row under its address or creates one under the new id. */
  lemma UpsertedIdIsOldOrNew(
    urls: map<Id, Url>, index: map<string, Id>, domainId: Id, n: Normalize.UrlInput, input: Urls.UrlPayload,
    newId: Id, now: Time)
    requires UrlIndexed(urls, index)
    ensures var u := Urls.UpsertedUrl(urls, index, domainId, n, input, newId, now);
      u.id in urls || u.id == newId
  {
  }

  /** The address a page is stored under: the normaliser's result for the domain's host. */
  function PageAddress(normalize: Urls.HostNormalizer, host: string, p: Page): Result<Normalize.UrlInput> {
    normalize(Str(p.url), host)
  }

  /**
   * What a page's upsert throws, if anything: the normaliser's refusal of
   * its address comes first; an address that normalises but a label with
   * no URL type is refused by the database client.
   */
  function PageFailure(normalize: Urls.HostNormalizer, host: string, p: Page): (f: Option<Failure>)
    ensures f.None? <==> PageAddress(normalize, host, p).Ok? && GuessUrlType(p.kind).Some?
    ensures PageAddress(normalize, host, p).Err? ==>
      f == Some(Urls.InvalidUrlFailure(PageAddress(normalize, host, p).error))
    ensures PageAddress(normalize, host, p).Ok? && GuessUrlType(p.kind).None? ==>
      f == Some(Thrown(InvalidTypeArgument))
  {
    var address := PageAddress(normalize, host, p);
    if address.Err? then Some(Urls.InvalidUrlFailure(address.error))
    else if GuessUrlType(p.kind).None? then Some(Thrown(InvalidTypeArgument))
    else None
  }

  /** The first page whose upsert throws. */
  function FirstRefused(normalize: Urls.HostNormalizer, host: string, pages: seq<Page>): (i: Option<nat>)
    ensures i.Some? ==> i.value < |pages| && PageFailure(normalize, host, pages[i.value]).Some?
    ensures i.Some? ==> forall j :: 0 <= j < i.value ==> PageFailure(normalize, host, pages[j]).None?
    ensures i.None? ==> forall j :: 0 <= j < |pages| ==> PageFailure(normalize, host, pages[j]).None?
  {
    Lists.FirstWhere(pages, (p: Page) => PageFailure(normalize, host, p).Some?)
  }

  /** The row upserted for a page carries the page's address, its guessed type and its canonical flag. */
  predicate Fits(normalize: Urls.HostNormalizer, host: string, p: Page, u: Url) {
    && PageAddress(normalize, host, p).Ok?
    && GuessUrlType(p.kind).Some?
    && u.normalizedUrl == PageAddress(normalize, host, p).value.normalizedUrl
    && u.urlType == GuessUrlType(p.kind).value
    && u.isCanonical == (u.urlType == HOMEPAGE)
  }

  /**
   * One page's upsert; a new row, if any, takes `newId`. A refused upsert
   * writes nothing.
   */
  method UpsertPage(db: Db, domainId: Id, p: Page, normalize: Urls.HostNormalizer, newId: Id, now: Time)
    returns (r: Result<Url>)
    requires db.Valid() && domainId in db.domains && newId !in db.urls
    modifies db
    ensures db.Valid() && db.domains == old(db.domains)
    ensures db.Snapshot() == old(db.Snapshot()).(urls := db.urls, urlByNormalized := db.urlByNormalized)
    ensures forall id :: id in old(db.urls) ==> id in db.urls
    ensures forall id :: id in db.urls ==> id in old(db.urls) || id == newId
    ensures r.Err? <==> PageFailure(normalize, old(db.domains)[domainId].host, p).Some?
    ensures r.Err? ==>
      r.error == PageFailure(normalize, old(db.domains)[domainId].host, p).value && db.urls == old(db.urls)
    ensures r.Ok? ==> r.value.id in db.urls && Fits(normalize, old(db.domains)[domainId].host, p, r.value)
  {
    ghost var before, index := db.urls, db.urlByNormalized;
    var failure := PageFailure(normalize, db.domains[domainId].host, p);
    if GuessUrlType(p.kind).None? {
      return Err(failure.value);
    }
    r := Urls.UpsertUrlForDomain(db, domainId, PagePayload(p), normalize, newId, now);
    if r.Ok? {
      UpsertedIdIsOldOrNew(before, index, domainId, PageAddress(normalize, db.domains[domainId].host, p).value,
                           PagePayload(p), newId, now);
    }
  }

  lemma FirstRefusedAt(normalize: Urls.HostNormalizer, host: string, pages: seq<Page>, i: nat)
    requires i < |pages| && PageFailure(normalize, host, pages[i]).Some?
    requires forall j :: 0 <= j < i ==> PageFailure(normalize, host, pages[j]).None?
    ensures FirstRefused(normalize, host, pages) == Some(i)
  {
  }

  /**
   * The upsert loop after `i` pages: every row it started from is still
   * there, the identifiers from `i` on are unused, and each upserted URL
   * has a row and fits its page.
   */
  ghost predicate Progress(
    start: map<Id, Url>, now: map<Id, Url>, newIds: nat -> Id, i: nat,
    normalize: Urls.HostNormalizer, host: string, pages: seq<Page>, urls: seq<Url>)
  {
    && i <= |pages| && |urls| == i
    && (forall id :: id in start ==> id in now)
    && (forall k :: k >= i ==> newIds(k) !in now)
    && (forall j :: 0 <= j < i ==> urls[j].id in now && Fits(normalize, host, pages[j], urls[j]))
  }

  /** One more upsert keeps the loop's bookkeeping. */
  lemma ProgressStep(
    start: map<Id, Url>, before: map<Id, Url>, after: map<Id, Url>, newIds: nat -> Id, i: nat,
    normalize: Urls.HostNormalizer, host: string, pages: seq<Page>, urls: seq<Url>, url: Url)
    requires Progress(start, before, newIds, i, normalize, host, pages, urls)
    requires i < |pages| && (forall a, b :: a != b ==> newIds(a) != newIds(b))
    requires forall id :: id in before ==> id in after
    requires forall id :: id in after ==> id in before || id == newIds(i)
    requires url.id in after && Fits(normalize, host, pages[i], url)
    ensures Progress(start, after, newIds, i + 1, normalize, host, pages, urls + [url])
  {
    forall k | k >= i + 1 ensures newIds(k) !in after {
      assert newIds(k) !in before && newIds(k) != newIds(i);
    }
  }

  /**
   * The upsert loop: one upsert per kept page, in order, each result
   * appended. The first page whose upsert throws (an address the normaliser
   * refuses, or a label with no URL type) stops the loop, and the upserts
   * before it stay written.
   */
  method UpsertPages(db: Db, domainId: Id, pages: seq<Page>, normalize: Urls.HostNormalizer, newIds: nat -> Id, now: Time)
    returns (r: Result<seq<Url>>)
    requires db.Valid() && domainId in db.domains && FreshIds(newIds, db.urls.Keys)
    modifies db
    ensures db.Valid() && db.domains == old(db.domains)
    ensures db.Snapshot() == old(db.Snapshot()).(urls := db.urls, urlByNormalized := db.urlByNormalized)
    ensures var host := old(db.domains)[domainId].host;
      && (r.Err? <==> FirstRefused(normalize, host, pages).Some?)
      && (r.Err? ==> r == Err(PageFailure(normalize, host, pages[FirstRefused(normalize, host, pages).value]).value))
    ensures r.Ok? ==> Progress(old(db.urls), db.urls, newIds, |pages|, normalize, old(db.domains)[domainId].host, pages, r.value)
  {
    var host := db.domains[domainId].host;
    var urls: seq<Url> := [];
    var i := 0;
    while i < |pages|
      invariant db.Valid() && db.domains == old(db.domains)
      invariant db.Snapshot() == old(db.Snapshot()).(urls := db.urls, urlByNormalized := db.urlByNormalized)
      invariant Progress(old(db.urls), db.urls, newIds, i, normalize, host, pages, urls)
    {
      ghost var before := db.urls;
      var url := UpsertPage(db, domainId, pages[i], normalize, newIds(i), now);
      if url.Err? {
        FirstRefusedAt(normalize, host, pages, i);
        return Err(url.error);
      }
      ProgressStep(old(db.urls), before, db.urls, newIds, i, normalize, host, pages, urls, url.value);
      urls := urls + [url.value];
      i := i + 1;
    }
    r := Ok(urls);
  }

  // ------------------------------------------------------------- homepage

  /** Some URL of the list is typed HOMEPAGE. */
  predicate HasHomepage(urls: seq<Url>) {
    exists i :: 0 <= i < |urls| && urls[i].urlType == HOMEPAGE
  }

  /** `if (!urls.some((u) => u.id === homepage.id)) urls.unshift(homepage)` */
  function WithHomepage(urls: seq<Url>, homepage: Url): (r: seq<Url>)
    // the homepage's row is listed exactly once more than before at most, and the list is kept behind it
    ensures exists i :: 0 <= i < |r| && r[i].id == homepage.id
    ensures |urls| <= |r| <= |urls| + 1 && r[|r| - |urls|..] == urls
    ensures |r| == |urls| + 1 <==> forall i :: 0 <= i < |urls| ==> urls[i].id != homepage.id
    ensures |r| == |urls| + 1 ==> r[0] == homepage
  {
    if exists i :: 0 <= i < |urls| && urls[i].id == homepage.id then urls
    else
      var r := [homepage] + urls;
      assert r[0].id == homepage.id && r[1..] == urls;
      r
  }

  /** A homepage the list did not hold is put first, so the list then has a homepage. */
  lemma HomepageAddedFirst(urls: seq<Url>, homepage: Url)
    requires homepage.urlType == HOMEPAGE
    requires forall i :: 0 <= i < |urls| ==> urls[i].id != homepage.id
    ensures HasHomepage(WithHomepage(urls, homepage))
  {
    assert WithHomepage(urls, homepage)[0] == homepage;
  }

  /** Putting the homepage's row in front keeps every listed id in the table. */
  lemma WithHomepageListed(urls: seq<Url>, homepage: Url, ids: set<Id>)
    requires homepage.id in ids && forall i :: 0 <= i < |urls| ==> urls[i].id in ids
    ensures forall i :: 0 <= i < |WithHomepage(urls, homepage)| ==> WithHomepage(urls, homepage)[i].id in ids
  {
    var r := WithHomepage(urls, homepage);
    if |r| != |urls| {
      assert forall i :: 1 <= i < |r| ==> r[i] == urls[i - 1];
    }
  }

  /**
   * When the canonical address is already in the list under another type,
   * the upsert retypes the row to HOMEPAGE but the list keeps the stale
   * copy: the list then has no homepage, so no URL gets the SECTIONS task.
   */
  lemma StaleCopyHidesHomepage(u: Url)
    requires u.urlType == OTHER
    ensures var row := u.(urlType := HOMEPAGE, isCanonical := true);
      && WithHomepage([u], row) == [u]
      && !HasHomepage(WithHomepage([u], row))
      && row.urlType == HOMEPAGE
  {
    var row := u.(urlType := HOMEPAGE, isCanonical := true);
    assert [u][0].id == row.id;
  }

  /** The upsert of the domain's canonical address as its homepage. */
  function HomepagePayload(d: Domain): Urls.UrlPayload {
    Urls.UrlPayload(Str(d.canonicalUrl), Some(HOMEPAGE), Some(true))
  }

  /** The address the homepage upsert normalises: the domain's canonical URL. */
  function HomepageAddress(normalize: Urls.HostNormalizer, d: Domain): Result<Normalize.UrlInput> {
    normalize(Str(d.canonicalUrl), d.host)
  }

  /** The row upserted as the homepage carries the canonical address, HOMEPAGE and the canonical flag. */
  predicate HomepageFits(normalize: Urls.HostNormalizer, d: Domain, u: Url) {
    && HomepageAddress(normalize, d).Ok?
    && u.normalizedUrl == HomepageAddress(normalize, d).value.normalizedUrl
    && u.urlType == HOMEPAGE && u.isCanonical
  }

  /**
   * The list of URLs to crawl, as `ingestDomain` builds it: the row of each
   * page, in page order, and possibly the homepage's row in front of them.
   */
  predicate Prepared(normalize: Urls.HostNormalizer, d: Domain, pages: seq<Page>, urls: seq<Url>) {
    && |pages| <= |urls| <= |pages| + 1
    && (forall j :: 0 <= j < |pages| ==> Fits(normalize, d.host, pages[j], urls[|urls| - |pages| + j]))
    && (|urls| == |pages| + 1 ==> HomepageFits(normalize, d, urls[0]))
  }

  /**
   * The homepage step of a list with no HOMEPAGE entry: the canonical
   * address is upserted as the homepage and put first unless its row is
   * already listed.
   */
  method AddHomepage(db: Db, domainId: Id, urls: seq<Url>, normalize: Urls.HostNormalizer, newId: Id, now: Time)
    returns (r: Result<seq<Url>>)
    requires db.Valid() && domainId in db.domains && newId !in db.urls
    requires forall i :: 0 <= i < |urls| ==> urls[i].id in db.urls
    modifies db
    ensures db.Valid() && db.domains == old(db.domains)
    ensures db.Snapshot() == old(db.Snapshot()).(urls := db.urls, urlByNormalized := db.urlByNormalized)
    ensures r.Err? <==> HomepageAddress(normalize, old(db.domains)[domainId]).Err?
    ensures r.Err? ==> r == Err(Urls.InvalidUrlFailure(HomepageAddress(normalize, old(db.domains)[domainId]).error))
    ensures r.Ok? ==> |urls| <= |r.value| <= |urls| + 1 && r.value[|r.value| - |urls|..] == urls
    ensures r.Ok? && |r.value| == |urls| + 1 ==> HomepageFits(normalize, old(db.domains)[domainId], r.value[0])
    ensures r.Ok? ==> forall i :: 0 <= i < |r.value| ==> r.value[i].id in db.urls
    ensures r.Ok? ==>
      || HasHomepage(r.value)
      || exists i :: 0 <= i < |r.value| && r.value[i].id in db.urls && db.urls[r.value[i].id].urlType == HOMEPAGE
  {
    ghost var before := db.urls;
    var homepage := Urls.UpsertUrlForDomain(db, domainId, HomepagePayload(db.domains[domainId]), normalize, newId, now);
    if homepage.Err? {
      return Err(homepage.error);
    }
    assert homepage.value.urlType == HOMEPAGE;
    assert forall i :: 0 <= i < |urls| ==> urls[i].id in before;
    WithHomepageListed(urls, homepage.value, db.urls.Keys);
    r := Ok(WithHomepage(urls, homepage.value));
    if |r.value| == |urls| {
      var k :| 0 <= k < |r.value| && r.value[k].id == homepage.value.id;
      assert db.urls[r.value[k].id] == homepage.value;
    } else {
      HomepageAddedFirst(urls, homepage.value);
    }
  }

  /** Putting at most the homepage's row in front of the pages' rows keeps them prepared. */
  lemma PreparedWithFront(normalize: Urls.HostNormalizer, d: Domain, pages: seq<Page>, urls: seq<Url>, out: seq<Url>)
    requires Prepared(normalize, d, pages, urls) && |urls| == |pages|
    requires |urls| <= |out| <= |urls| + 1 && out[|out| - |urls|..] == urls
    requires |out| == |urls| + 1 ==> HomepageFits(normalize, d, out[0])
    ensures Prepared(normalize, d, pages, out)
    ensures |out| == |pages| + 1 ==> out[1..] == urls
  {
    forall j | 0 <= j < |pages| ensures out[|out| - |pages| + j] == urls[j] {
      assert out[|out| - |urls|..][j] == urls[j];
    }
  }

  /**
   * The URLs to crawl: the kept pages upserted in order, and when none of
   * them is typed HOMEPAGE, the canonical address upserted as the homepage
   * and put first unless its row is already listed.
   */
  method PrepareUrls(db: Db, domainId: Id, pages: seq<Page>, normalize: Urls.HostNormalizer, newIds: nat -> Id, now: Time)
    returns (r: Result<seq<Url>>)
    requires db.Valid() && domainId in db.domains && FreshIds(newIds, db.urls.Keys)
    modifies db
    ensures db.Valid() && db.domains == old(db.domains)
    ensures db.Snapshot() == old(db.Snapshot()).(urls := db.urls, urlByNormalized := db.urlByNormalized)
    ensures var host := old(db.domains)[domainId].host;
      FirstRefused(normalize, host, pages).Some? ==>
        r == Err(PageFailure(normalize, host, pages[FirstRefused(normalize, host, pages).value]).value)
    ensures var d := old(db.domains)[domainId];
      FirstRefused(normalize, d.host, pages).None? && r.Err? ==>
        HomepageAddress(normalize, d).Err? && r == Err(Urls.InvalidUrlFailure(HomepageAddress(normalize, d).error))
    // the pages' rows in page order, behind the homepage's row when that was added
    ensures r.Ok? ==> Prepared(normalize, old(db.domains)[domainId], pages, r.value)
    ensures r.Ok? && |r.value| == |pages| + 1 ==> !HasHomepage(r.value[1..])
    ensures r.Ok? ==> forall i :: 0 <= i < |r.value| ==> r.value[i].id in db.urls
    // either a listed URL is typed HOMEPAGE, or a listed row is the homepage in the table
    ensures r.Ok? ==>
      || HasHomepage(r.value)
      || exists i :: 0 <= i < |r.value| && r.value[i].id in db.urls && db.urls[r.value[i].id].urlType == HOMEPAGE
  {
    var d := db.domains[domainId];
    var upserted := UpsertPages(db, domainId, pages, normalize, newIds, now);
    if upserted.Err? {
      return upserted;
    }
    var urls := upserted.value;
    assert urls[|urls| - |pages|..] == urls;
    assert Prepared(normalize, d, pages, urls);
    if HasHomepage(urls) {
      return Ok(urls);
    }
    r := AddHomepage(db, domainId, urls, normalize, newIds(|pages|), now);
    if r.Ok? {
      PreparedWithFront(normalize, d, pages, urls, r.value);
    }
  }

}
