/**
 * The publishing service (`src/services/publishing.js`): normalising a
 * run's tags, deciding which domains have a successful crawl run newer than
 * the run last reviewed or published for them, the order and size of the
 * review queue, and the flag writes that review or publish a crawl run, its
 * crawls, their screenshots and their section screenshots.
 *
 * The three "latest run per domain" queries are inputs: each is the list
 * of runs the database returns, at most one per domain. The homepage crawl
 * shown with each queue entry is not modelled (its score is a floating
 * point sum).
 */
module Publishing {
  import opened Wrappers
  import opened Text
  import opened Js
  import opened Store
  import Lists
  import Jobs
  import Crawls
  import CrawlRuns

  const MaxTags := 50
  const RunNotFound := "Crawl run not found"
  /** What reading a property of a `null` input throws. */
  const NullInput := "Cannot read properties of null (reading 'domainIsPublished')"

  // ----------------------------------------------------------------- tags

  /** A stored tag: non-empty, with no surrounding whitespace. */
  predicate IsTag(s: string) {
    s != "" && !IsSpace(s[0]) && !IsSpace(s[|s| - 1])
  }

  /** `String(t || '').trim()`, kept only when non-empty (`filter(Boolean)`). */
  function TagOf(t: JsValue): (r: Option<string>)
    ensures r.Some? ==> IsTag(r.value)
  {
    var s := Trim(ToStr(Or(t, Str(""))));
    if s == "" then None else Some(s)
  }

  /**
   * `normalizeTags`: `None` (null) for anything but an array; otherwise the
   * trimmed non-empty texts of its entries, in order, at most 50.
   */
  function NormalizeTags(input: JsValue): (r: Option<seq<string>>)
    ensures r.None? <==> !input.Arr?
    ensures r.Some? ==> |r.value| <= MaxTags && forall i :: 0 <= i < |r.value| ==> IsTag(r.value[i])
    ensures r.Some? ==>
      var kept := Lists.KeepSome(input.items, TagOf);
      && |r.value| <= |kept| && r.value == kept[..|r.value|]
      && (|r.value| < MaxTags ==> r.value == kept)
  {
    if !input.Arr? then None
    else
      var kept := Lists.KeepSome(input.items, TagOf);
      Lists.KeepSomeAll(input.items, TagOf, IsTag);
      Some(if |kept| <= MaxTags then kept else kept[..MaxTags])
  }

  /** Tags as the array of strings they are sent and stored as. */
  function Strs(tags: seq<string>): (vs: seq<JsValue>)
    ensures |vs| == |tags| && forall i :: 0 <= i < |tags| ==> vs[i] == Str(tags[i])
  {
    seq(|tags|, i requires 0 <= i < |tags| => Str(tags[i]))
  }

  /** Stored tags sent back as strings are all kept, unchanged and in order. */
  lemma KeepTags(tags: seq<string>)
    requires forall i :: 0 <= i < |tags| ==> IsTag(tags[i])
    ensures Lists.KeepSome(Strs(tags), TagOf) == tags
  {
    var xs := Strs(tags);
    forall i | 0 <= i < |xs| ensures TagOf(xs[i]) == Some(tags[i]) {
      TagOfTag(tags[i]);
    }
    Lists.KeepSomeEvery(xs, TagOf, tags);
  }

  /** A stored tag is kept as it is. */
  lemma TagOfTag(t: string)
    requires IsTag(t)
    ensures TagOf(Str(t)) == Some(t)
  {
    assert Or(Str(t), Str("")) == Str(t);
    TrimNoSpace(t);
  }

  /** Normalised tags normalise to themselves: saving the stored tags again stores the same tags. */
  lemma NormalizeTagsIdempotent(input: JsValue)
    requires input.Arr?
    ensures NormalizeTags(Arr(Strs(NormalizeTags(input).value))) == NormalizeTags(input)
  {
    var tags := NormalizeTags(input).value;
    KeepTags(tags);
  }

  // ---------------------------------------------------------- review rule

  /** `timeMs(crawlRunTime(run))`: the run's finish time, else its creation time; 0 without a run. */
  function RunTimeMs(run: Option<CrawlRun>): int {
    match run
    case None => 0
    case Some(r) => if r.finishedAt.Some? then r.finishedAt.value else r.createdAt
  }

  /** `Math.max` */
  function Max(a: int, b: int): (m: int)
    ensures m >= a && m >= b && (m == a || m == b)
  {
    if a >= b then a else b
  }

  /** The filter of `getReviewCount`: no latest time excludes, no baseline includes, else newer than the baseline. */
  predicate NeedsReview(latestMs: int, reviewedMs: int, publishedMs: int) {
    if latestMs == 0 then false
    else
      var baseline := Max(reviewedMs, publishedMs);
      if baseline == 0 then true else latestMs > baseline
  }

  /** The same rule as `listDomainsToReview` writes it: `!baseline ? Boolean(latest) : latest > baseline`. */
  predicate NeedsReviewInline(latestMs: int, reviewedMs: int, publishedMs: int) {
    var baseline := Max(reviewedMs, publishedMs);
    if baseline == 0 then latestMs != 0 else latestMs > baseline
  }

  /**
   * The two forms agree whenever the reviewed and published times are not
   * before 1970, and the rule in both is: a latest time other than 0 that
   * is later than both baselines.
   */
  lemma ReviewRulesAgree(latestMs: int, reviewedMs: int, publishedMs: int)
    requires reviewedMs >= 0 && publishedMs >= 0
    ensures NeedsReview(latestMs, reviewedMs, publishedMs) == NeedsReviewInline(latestMs, reviewedMs, publishedMs)
    ensures NeedsReview(latestMs, reviewedMs, publishedMs) <==>
      latestMs != 0 && ((reviewedMs == 0 && publishedMs == 0) || (latestMs > reviewedMs && latestMs > publishedMs))
  {
  }

  /** With both baselines before 1970 and a latest time of exactly 0, only the inline form includes the domain. */
  lemma ReviewRulesDifferBeforeEpoch()
    ensures !NeedsReview(0, -1, -1) && NeedsReviewInline(0, -1, -1)
  {
  }

  /** `new Map(rows.map((r) => [r.domainId, r])).get(domainId)`: the last row of the domain. */
  function ByDomain(rows: seq<CrawlRun>, domainId: Id): (r: Option<CrawlRun>)
    ensures r.Some? ==> r.value in rows && r.value.domainId == domainId
    // the later entry of the domain overwrites the earlier ones in the Map
    ensures r.Some? ==>
      exists k :: 0 <= k < |rows| && rows[k] == r.value
                  && forall j :: k < j < |rows| ==> rows[j].domainId != domainId
    ensures r.None? ==> forall x :: x in rows ==> x.domainId != domainId
  {
    var i := Lists.LastWhere(rows, (x: CrawlRun) => x.domainId == domainId);
    if i.Some? then Some(rows[i.value]) else None
  }

  /** Whether a domain's latest successful run is due for review, by the `getReviewCount` rule. */
  predicate Due(latest: CrawlRun, reviewedRows: seq<CrawlRun>, publishedRows: seq<CrawlRun>) {
    NeedsReview(RunTimeMs(Some(latest)),
                RunTimeMs(ByDomain(reviewedRows, latest.domainId)),
                RunTimeMs(ByDomain(publishedRows, latest.domainId)))
  }

  /** `getReviewCount`: how many of the latest successful runs are due (reported as both counts). */
  function ReviewCount(latestRows: seq<CrawlRun>, reviewedRows: seq<CrawlRun>, publishedRows: seq<CrawlRun>): (n: nat)
    ensures n <= |latestRows|
  {
    if latestRows == [] then 0
    else (if Due(latestRows[0], reviewedRows, publishedRows) then 1 else 0)
         + ReviewCount(latestRows[1..], reviewedRows, publishedRows)
  }

  /** One entry of the review queue. */
  datatype Candidate = Candidate(domainId: Id, latest: CrawlRun, latestMs: int)

  function LatestMsOf(c: Candidate): int {
    c.latestMs
  }

  /** The `map` step of `listDomainsToReview`: a candidate when the inline rule says the run is due. */
  function CandidateOf(latest: CrawlRun, reviewedRows: seq<CrawlRun>, publishedRows: seq<CrawlRun>): (c: Option<Candidate>)
    ensures c.Some? ==> c.value.domainId == latest.domainId && c.value.latest == latest
                        && c.value.latestMs == RunTimeMs(Some(latest))
  {
    var latestMs := RunTimeMs(Some(latest));
    if NeedsReviewInline(latestMs, RunTimeMs(ByDomain(reviewedRows, latest.domainId)),
                         RunTimeMs(ByDomain(publishedRows, latest.domainId)))
    then Some(Candidate(latest.domainId, latest, latestMs))
    else None
  }

  function Candidates(latestRows: seq<CrawlRun>, reviewedRows: seq<CrawlRun>, publishedRows: seq<CrawlRun>): seq<Candidate> {
    Lists.KeepSome(latestRows, (x: CrawlRun) => CandidateOf(x, reviewedRows, publishedRows))
  }

  /** No baseline time before 1970. */
  predicate NoTimeBeforeEpoch(rows: seq<CrawlRun>) {
    forall x :: x in rows ==> RunTimeMs(Some(x)) >= 0
  }

  /**
   * The count `getReviewCount` reports is the number of entries the queue
   * of `listDomainsToReview` holds before it is cut to the page size.
   */
  lemma {:induction false} ReviewCountIsQueueLength(latestRows: seq<CrawlRun>, reviewedRows: seq<CrawlRun>, publishedRows: seq<CrawlRun>)
    requires NoTimeBeforeEpoch(reviewedRows) && NoTimeBeforeEpoch(publishedRows)
    ensures ReviewCount(latestRows, reviewedRows, publishedRows) == |Candidates(latestRows, reviewedRows, publishedRows)|
  {
    if latestRows != [] {
      var x := latestRows[0];
      var rv, pb := ByDomain(reviewedRows, x.domainId), ByDomain(publishedRows, x.domainId);
      assert RunTimeMs(rv) >= 0 && RunTimeMs(pb) >= 0;
      ReviewRulesAgree(RunTimeMs(Some(x)), RunTimeMs(rv), RunTimeMs(pb));
      assert Due(x, reviewedRows, publishedRows) <==> CandidateOf(x, reviewedRows, publishedRows).Some?;
      ReviewCountIsQueueLength(latestRows[1..], reviewedRows, publishedRows);
    }
  }

  /** Every value of a sorted prefix is at least every value left out. */
  lemma PrefixIsTop(sorted: seq<Candidate>, n: nat)
    requires Jobs.Descending(sorted, LatestMsOf) && n <= |sorted|
    ensures forall c :: c in sorted && c !in sorted[..n] ==> forall k :: 0 <= k < n ==> c.latestMs <= sorted[k].latestMs
  {
    forall c | c in sorted && c !in sorted[..n]
      ensures forall k :: 0 <= k < n ==> c.latestMs <= sorted[k].latestMs
    {
      var i :| 0 <= i < |sorted| && sorted[i] == c;
      forall j | 0 <= j < n ensures sorted[j] != c {
        assert sorted[j] == sorted[..n][j];
      }
      forall k | 0 <= k < n ensures c.latestMs <= sorted[k].latestMs {
        assert LatestMsOf(sorted[k]) >= LatestMsOf(sorted[i]);
      }
    }
  }

  /** The first `n` of a list sorted latest first. */
  function Cut(sorted: seq<Candidate>, n: nat): (q: seq<Candidate>)
    ensures |q| == if |sorted| <= n then |sorted| else n
  {
    if |sorted| <= n then sorted else sorted[..n]
  }

  /** Sorting keeps the candidates: the same length and the same members. */
  lemma SortKeeps(all: seq<Candidate>)
    ensures var sorted := Jobs.SortDescending(all, LatestMsOf);
      |sorted| == |all| && forall c :: c in all <==> c in sorted
  {
    var sorted := Jobs.SortDescending(all, LatestMsOf);
    assert |sorted| == |multiset(sorted)| == |multiset(all)| == |all|;
    forall c ensures c in all <==> c in sorted {
      assert c in all <==> c in multiset(all);
      assert c in sorted <==> c in multiset(sorted);
    }
  }

  /** A prefix of a latest-first list is latest first, part of it, and no later than anything it leaves out. */
  lemma PrefixFacts(sorted: seq<Candidate>, n: nat)
    requires Jobs.Descending(sorted, LatestMsOf) && n <= |sorted|
    ensures Jobs.Descending(sorted[..n], LatestMsOf)
    ensures multiset(sorted[..n]) <= multiset(sorted)
    ensures forall c :: c in sorted && c !in sorted[..n] ==> forall k :: 0 <= k < n ==> c.latestMs <= sorted[..n][k].latestMs
  {
    PrefixIsTop(sorted, n);
    assert sorted == sorted[..n] + sorted[n..];
    assert multiset(sorted) == multiset(sorted[..n]) + multiset(sorted[n..]);
  }

  /** Cutting the sorted candidates keeps a latest-first selection of them, and only later ones than it drops. */
  lemma CutIsTop(all: seq<Candidate>, n: nat)
    ensures var q := Cut(Jobs.SortDescending(all, LatestMsOf), n);
      && Jobs.Descending(q, LatestMsOf)
      && multiset(q) <= multiset(all)
      && |q| == (if |all| <= n then |all| else n)
      && (forall c :: c in all && c !in q ==> forall k :: 0 <= k < |q| ==> c.latestMs <= q[k].latestMs)
  {
    var sorted := Jobs.SortDescending(all, LatestMsOf);
    SortKeeps(all);
    if |sorted| > n {
      PrefixFacts(sorted, n);
    }
  }

  /**
   * The queue of `listDomainsToReview`: the due candidates, latest time
   * first, cut to `max(1, min(Number(limit) || 50, 200))`. It holds as many
   * as the cut allows, latest first, and no candidate left out is later than
   * one kept.
   */
  function ReviewQueue(latestRows: seq<CrawlRun>, reviewedRows: seq<CrawlRun>, publishedRows: seq<CrawlRun>, limit: JsValue)
    : (q: seq<Candidate>)
    ensures var all := Candidates(latestRows, reviewedRows, publishedRows);
      var n := CrawlRuns.RunsTake(limit).Floor;
      && Jobs.Descending(q, LatestMsOf)
      && multiset(q) <= multiset(all)
      && |q| == (if |all| <= n then |all| else n)
      && (forall c :: c in all && c !in q ==> forall k :: 0 <= k < |q| ==> c.latestMs <= q[k].latestMs)
  {
    var all := Candidates(latestRows, reviewedRows, publishedRows);
    var n := CrawlRuns.RunsTake(limit).Floor;
    CutIsTop(all, n);
    Cut(Jobs.SortDescending(all, LatestMsOf), n)
  }

  /** One entry of the listing (the homepage overview is not modelled). */
  datatype ReviewItem = ReviewItem(domain: Domain, pendingCrawlRunsCount: nat, latestPendingCrawlRun: CrawlRun)

  /** The `crawlRun.groupBy` count of a domain's successful runs; no group counts 0. */
  function SuccessRuns(runs: map<Id, CrawlRun>, domainId: Id): nat {
    |set id | id in runs && runs[id].domainId == domainId && runs[id].status == SUCCESS|
  }

  function ItemOf(domains: map<Id, Domain>, runs: map<Id, CrawlRun>, c: Candidate): (r: Option<ReviewItem>)
    ensures r.Some? <==> c.domainId in domains
  {
    if c.domainId in domains then Some(ReviewItem(domains[c.domainId], SuccessRuns(runs, c.domainId), c.latest))
    else None
  }

  /** The positions of the queue entries whose domain row exists, in increasing order. */
  function PresentAt(q: seq<Candidate>, domains: map<Id, Domain>): (idx: seq<nat>)
    ensures forall k :: 0 <= k < |idx| ==> idx[k] < |q| && q[idx[k]].domainId in domains
    ensures forall k, l :: 0 <= k < l < |idx| ==> idx[k] < idx[l]
    ensures forall j :: 0 <= j < |q| && q[j].domainId in domains ==> j in idx
    decreases |q|
  {
    if q == [] then []
    else
      var n := |q| - 1;
      var front := PresentAt(q[..n], domains);
      assert forall j :: 0 <= j < n ==> q[..n][j] == q[j];
      if q[n].domainId in domains then front + [n] else front
  }

  /**
   * `listDomainsToReview`: one item per queue entry whose domain row still
   * exists, in queue order, with the domain's count of successful runs and
   * the run that made it due. `latestRows` lists one run per domain, as the
   * `distinct` query returns it.
   */
  function ListDomainsToReview(
    domains: map<Id, Domain>, runs: map<Id, CrawlRun>,
    latestRows: seq<CrawlRun>, reviewedRows: seq<CrawlRun>, publishedRows: seq<CrawlRun>, limit: JsValue)
    : (items: seq<ReviewItem>)
    ensures var q := ReviewQueue(latestRows, reviewedRows, publishedRows, limit);
      var idx := PresentAt(q, domains);
      && |items| == |idx| <= |q|
      && (forall k :: 0 <= k < |idx| ==>
            items[k] == ReviewItem(domains[q[idx[k]].domainId], SuccessRuns(runs, q[idx[k]].domainId), q[idx[k]].latest))
  {
    var q := ReviewQueue(latestRows, reviewedRows, publishedRows, limit);
    var f := (c: Candidate) => ItemOf(domains, runs, c);
    Lists.KeepSomeAt(q, f, PresentAt(q, domains));
    Lists.KeepSome(q, f)
  }

  // ---------------------------------------------------------- publication

  /** A publication flag counts only when it is exactly `true` or `false`. */
  function Flag(v: JsValue): (f: Option<bool>)
    ensures f.Some? <==> v.Bool?
    ensures f.Some? ==> v == Bool(f.value)
  {
    if v.Bool? then Some(v.b) else None
  }

  /** `String(id)`, dropped when empty. */
  function IdOf(v: JsValue): (r: Option<Id>)
    ensures r.Some? ==> r.value != ""
  {
    var s := ToStr(v);
    if s == "" then None else Some(s)
  }

  /** `Array.isArray(v) ? v.map(String).filter(Boolean) : []` */
  function IdList(v: JsValue): (ids: seq<Id>)
    ensures !v.Arr? ==> ids == []
    ensures forall i :: 0 <= i < |ids| ==> ids[i] != ""
  {
    if v.Arr? then
      Lists.KeepSomeAll(v.items, IdOf, (s: Id) => s != "");
      Lists.KeepSome(v.items, IdOf)
    else []
  }

  /** The request as the service reads it. */
  datatype PublicationInput = PublicationInput(
    domainIsPublished: Option<bool>, crawlRunIsPublished: Option<bool>, tags: Option<seq<string>>,
    crawlsToPublish: seq<Id>, crawlsToUnpublish: seq<Id>,
    sectionsToPublish: seq<Id>, sectionsToUnpublish: seq<Id>,
    markReviewed: bool)

  /** Reading the body; an omitted body is `{}`, and `markReviewed` holds unless it is exactly `false`. */
  function ReadInput(input: JsValue): (p: PublicationInput)
    ensures p.markReviewed <==> Get(input, "markReviewed") != Bool(false)
    ensures p.domainIsPublished == Flag(Get(input, "domainIsPublished"))
    ensures p.crawlRunIsPublished == Flag(Get(input, "crawlRunIsPublished"))
    ensures p.tags == NormalizeTags(Get(input, "crawlRunTags"))
  {
    PublicationInput(
      Flag(Get(input, "domainIsPublished")), Flag(Get(input, "crawlRunIsPublished")),
      NormalizeTags(Get(input, "crawlRunTags")),
      IdList(Get(input, "crawlsToPublish")), IdList(Get(input, "crawlsToUnpublish")),
      IdList(Get(input, "sectionsToPublish")), IdList(Get(input, "sectionsToUnpublish")),
      Get(input, "markReviewed") != Bool(false))
  }

  /** Whether the crawl run row is written at all. */
  predicate TouchesRun(p: PublicationInput) {
    p.crawlRunIsPublished.Some? || p.tags.Some? || p.markReviewed
  }

  /**
   * The crawl run after its update at instant `now`: publishing stamps
   * `publishedAt`, unpublishing clears it, given tags are stored as JSON,
   * and a review marks it REVIEWED at `now`; every other column is kept.
   */
  function PublishedRun(run: CrawlRun, p: PublicationInput, now: Time, stringify: CrawlRuns.Stringify): (u: CrawlRun)
    ensures u == run.(isPublished := u.isPublished, publishedAt := u.publishedAt, tagsJson := u.tagsJson,
                      reviewStatus := u.reviewStatus, reviewedAt := u.reviewedAt)
    ensures p.crawlRunIsPublished == Some(true) ==> u.isPublished && u.publishedAt == Some(now)
    ensures p.crawlRunIsPublished == Some(false) ==> !u.isPublished && u.publishedAt.None?
    ensures p.crawlRunIsPublished.None? ==> u.isPublished == run.isPublished && u.publishedAt == run.publishedAt
    ensures u.tagsJson == (if p.tags.Some? then stringify(Arr(Strs(p.tags.value))) else run.tagsJson)
    ensures p.markReviewed ==> u.reviewStatus == REVIEWED && u.reviewedAt == Some(now)
    ensures !p.markReviewed ==> u.reviewStatus == run.reviewStatus && u.reviewedAt == run.reviewedAt
  {
    var published :=
      if p.crawlRunIsPublished.Some?
      then run.(isPublished := p.crawlRunIsPublished.value,
                publishedAt := if p.crawlRunIsPublished.value then Some(now) else None)
      else run;
    var tagged := if p.tags.Some? then published.(tagsJson := stringify(Arr(Strs(p.tags.value)))) else published;
    if p.markReviewed then tagged.(reviewStatus := REVIEWED, reviewedAt := Some(now)) else tagged
  }

  /** `urlCrawl.updateMany` on the listed crawls of the run. */
  function FlagCrawls(crawls: map<Id, UrlCrawl>, runId: Id, ids: seq<Id>, flag: bool): (r: map<Id, UrlCrawl>)
    ensures r.Keys == crawls.Keys
    ensures forall id :: id in crawls ==> r[id] == crawls[id].(isPublished := r[id].isPublished)
    ensures forall id :: id in crawls ==>
      r[id].isPublished == if id in ids && crawls[id].crawlRunId == Some(runId) then flag else crawls[id].isPublished
  {
    map id | id in crawls :: if id in ids && crawls[id].crawlRunId == Some(runId) then crawls[id].(isPublished := flag) else crawls[id]
  }

  /** `screenshot.updateMany` on the screenshots of the listed crawls, whichever run they belong to. */
  function FlagShots(shots: map<Id, Screenshot>, crawlIds: seq<Id>, flag: bool): (r: map<Id, Screenshot>)
    ensures r.Keys == shots.Keys
    ensures forall id :: id in shots ==> r[id] == shots[id].(isPublished := r[id].isPublished)
    ensures forall id :: id in shots ==>
      r[id].isPublished == if shots[id].crawlId in crawlIds then flag else shots[id].isPublished
  {
    map id | id in shots :: if shots[id].crawlId in crawlIds then shots[id].(isPublished := flag) else shots[id]
  }

  /** `sectionScreenshot.updateMany` on the sections of the listed crawls. */
  function FlagSectionsOfCrawls(sections: map<Id, Section>, crawlIds: seq<Id>, flag: bool): (r: map<Id, Section>)
    ensures r.Keys == sections.Keys
    ensures forall id :: id in sections ==> r[id] == sections[id].(isPublished := r[id].isPublished)
    ensures forall id :: id in sections ==>
      r[id].isPublished == if sections[id].crawlId in crawlIds then flag else sections[id].isPublished
  {
    map id | id in sections :: if sections[id].crawlId in crawlIds then sections[id].(isPublished := flag) else sections[id]
  }

  /** A section whose crawl belongs to the run. */
  predicate SectionInRun(crawls: map<Id, UrlCrawl>, s: Section, runId: Id) {
    s.crawlId in crawls && crawls[s.crawlId].crawlRunId == Some(runId)
  }

  /** `sectionScreenshot.updateMany` on the listed sections whose crawl belongs to the run. */
  function FlagSections(sections: map<Id, Section>, crawls: map<Id, UrlCrawl>, runId: Id, ids: seq<Id>, flag: bool)
    : (r: map<Id, Section>)
    ensures r.Keys == sections.Keys
    ensures forall id :: id in sections ==> r[id] == sections[id].(isPublished := r[id].isPublished)
    ensures forall id :: id in sections ==>
      r[id].isPublished == if id in ids && SectionInRun(crawls, sections[id], runId) then flag else sections[id].isPublished
  {
    map id | id in sections ::
      if id in ids && SectionInRun(crawls, sections[id], runId) then sections[id].(isPublished := flag) else sections[id]
  }

  // The steps of the transaction, table by table; an empty list issues no update.

  function CrawlStep(crawls: map<Id, UrlCrawl>, runId: Id, ids: seq<Id>, flag: bool): map<Id, UrlCrawl> {
    if |ids| > 0 then FlagCrawls(crawls, runId, ids, flag) else crawls
  }

  function ShotStep(shots: map<Id, Screenshot>, crawlIds: seq<Id>, flag: bool): map<Id, Screenshot> {
    if |crawlIds| > 0 then FlagShots(shots, crawlIds, flag) else shots
  }

  function SectionsOfCrawlsStep(sections: map<Id, Section>, crawlIds: seq<Id>): map<Id, Section> {
    if |crawlIds| > 0 then FlagSectionsOfCrawls(sections, crawlIds, false) else sections
  }

  function SectionStep(sections: map<Id, Section>, crawls: map<Id, UrlCrawl>, runId: Id, ids: seq<Id>, flag: bool)
    : map<Id, Section>
  {
    if |ids| > 0 then FlagSections(sections, crawls, runId, ids, flag) else sections
  }

  /** The domain row after the optional flag update. */
  function DomainsAfter(domains: map<Id, Domain>, run: CrawlRun, p: PublicationInput): map<Id, Domain>
    requires p.domainIsPublished.Some? ==> run.domainId in domains
  {
    if p.domainIsPublished.Some?
    then domains[run.domainId := domains[run.domainId].(isPublished := p.domainIsPublished.value)]
    else domains
  }

  function RunsAfter(runs: map<Id, CrawlRun>, run: CrawlRun, p: PublicationInput, now: Time, stringify: CrawlRuns.Stringify)
    : map<Id, CrawlRun>
  {
    if TouchesRun(p) then runs[run.id := PublishedRun(run, p, now, stringify)] else runs
  }

  /** Crawls: publishing, then unpublishing. */
  function CrawlsAfter(crawls: map<Id, UrlCrawl>, runId: Id, p: PublicationInput): map<Id, UrlCrawl> {
    CrawlStep(CrawlStep(crawls, runId, p.crawlsToPublish, true), runId, p.crawlsToUnpublish, false)
  }

  /** Screenshots follow their crawls' lists, publishing then unpublishing. */
  function ShotsAfter(shots: map<Id, Screenshot>, p: PublicationInput): map<Id, Screenshot> {
    ShotStep(ShotStep(shots, p.crawlsToPublish, true), p.crawlsToUnpublish, false)
  }

  /**
   * Section screenshots: those of unpublished crawls, then the listed ones
   * to publish, then the listed ones to unpublish; the last two see the
   * crawl table as the crawl steps left it.
   */
  function SectionsAfter(sections: map<Id, Section>, crawls: map<Id, UrlCrawl>, runId: Id, p: PublicationInput)
    : map<Id, Section>
  {
    var after := CrawlsAfter(crawls, runId, p);
    SectionStep(SectionStep(SectionsOfCrawlsStep(sections, p.crawlsToUnpublish), after, runId, p.sectionsToPublish, true),
                after, runId, p.sectionsToUnpublish, false)
  }

  /** The tables after a saved publication. */
  function Published(t: Tables, run: CrawlRun, p: PublicationInput, now: Time, stringify: CrawlRuns.Stringify): Tables
    requires p.domainIsPublished.Some? ==> run.domainId in t.domains
  {
    t.(domains := DomainsAfter(t.domains, run, p),
       crawlRuns := RunsAfter(t.crawlRuns, run, p, now, stringify),
       crawls := CrawlsAfter(t.crawls, run.id, p),
       screenshots := ShotsAfter(t.screenshots, p),
       sections := SectionsAfter(t.sections, t.crawls, run.id, p))
  }

  /**
   * A crawl of the run ends unpublished when listed for unpublishing (even
   * when also listed for publishing), published when listed only for
   * publishing, and as it was otherwise; a crawl of another run is never
   * touched, and no other column changes.
   */
  lemma CrawlFlagAfterSave(crawls: map<Id, UrlCrawl>, runId: Id, p: PublicationInput, id: Id)
    requires id in crawls
    ensures var after := CrawlsAfter(crawls, runId, p);
      && id in after
      && after[id] == crawls[id].(isPublished := after[id].isPublished)
      && after[id].isPublished ==
           if crawls[id].crawlRunId != Some(runId) then crawls[id].isPublished
           else if id in p.crawlsToUnpublish then false
           else if id in p.crawlsToPublish then true
           else crawls[id].isPublished
  {
    var c1 := CrawlStep(crawls, runId, p.crawlsToPublish, true);
    assert id in c1 && c1[id] == crawls[id].(isPublished := c1[id].isPublished);
  }

  /**
   * A screenshot follows the lists its crawl is named in, unpublishing
   * last, and is matched by crawl alone: the screenshots of a listed crawl
   * of another run change too.
   */
  lemma ShotFlagAfterSave(shots: map<Id, Screenshot>, p: PublicationInput, id: Id)
    requires id in shots
    ensures var after := ShotsAfter(shots, p);
      && id in after
      && after[id].isPublished ==
           if shots[id].crawlId in p.crawlsToUnpublish then false
           else if shots[id].crawlId in p.crawlsToPublish then true
           else shots[id].isPublished
  {
    var s1 := ShotStep(shots, p.crawlsToPublish, true);
    assert id in s1 && s1[id] == shots[id].(isPublished := s1[id].isPublished);
  }

  /**
   * A section screenshot: the run's section lists decide (unpublishing
   * last); otherwise unpublishing its crawl unpublishes it, while
   * publishing its crawl leaves it as it was.
   */
  lemma SectionFlagAfterSave(sections: map<Id, Section>, crawls: map<Id, UrlCrawl>, runId: Id, p: PublicationInput, id: Id)
    requires id in sections
    ensures var s := sections[id];
      var after := SectionsAfter(sections, crawls, runId, p);
      && id in after
      && after[id].isPublished ==
           if id in p.sectionsToUnpublish && SectionInRun(crawls, s, runId) then false
           else if id in p.sectionsToPublish && SectionInRun(crawls, s, runId) then true
           else if s.crawlId in p.crawlsToUnpublish then false
           else s.isPublished
  {
    var c := CrawlsAfter(crawls, runId, p);
    var c1 := CrawlStep(crawls, runId, p.crawlsToPublish, true);
    assert c1.Keys == crawls.Keys && forall k :: k in crawls ==> c1[k].crawlRunId == crawls[k].crawlRunId;
    assert c.Keys == crawls.Keys && forall k :: k in crawls ==> c[k].crawlRunId == crawls[k].crawlRunId;
    var s1 := SectionsOfCrawlsStep(sections, p.crawlsToUnpublish);
    assert id in s1 && s1[id] == sections[id].(isPublished := s1[id].isPublished);
    var s2 := SectionStep(s1, c, runId, p.sectionsToPublish, true);
    assert id in s2 && s2[id] == sections[id].(isPublished := s2[id].isPublished);
    assert SectionInRun(c, s1[id], runId) == SectionInRun(crawls, sections[id], runId);
    assert SectionInRun(c, s2[id], runId) == SectionInRun(crawls, sections[id], runId);
  }

  // ------------------------------------------------------------- writes

  method WriteDomainFlag(db: Db, run: CrawlRun, p: PublicationInput)
    requires db.Valid() && (p.domainIsPublished.Some? ==> run.domainId in db.domains)
    modifies db
    ensures db.Valid()
    ensures db.domains == DomainsAfter(old(db.domains), run, p)
    ensures db.Snapshot() == old(db.Snapshot()).(domains := db.domains)
  {
    if p.domainIsPublished.Some? {
      var d := db.domains[run.domainId];
      db.domains := db.domains[run.domainId := d.(isPublished := p.domainIsPublished.value)];
    }
  }

  lemma FlagCrawlsKeeps(crawls: map<Id, UrlCrawl>, tasks: map<(Id, TaskType), CrawlTask>, runId: Id, ids: seq<Id>, flag: bool)
    requires CrawlsKeyed(crawls) && TasksKeyed(tasks, crawls)
    ensures CrawlsKeyed(FlagCrawls(crawls, runId, ids, flag)) && TasksKeyed(tasks, FlagCrawls(crawls, runId, ids, flag))
  {
  }

  /** `urlCrawl.updateMany` on the listed crawls of the run. */
  method WriteCrawlFlags(db: Db, runId: Id, ids: seq<Id>, flag: bool)
    requires db.Valid()
    modifies db
    ensures db.Valid()
    ensures db.crawls == CrawlStep(old(db.crawls), runId, ids, flag)
    ensures db.Snapshot() == old(db.Snapshot()).(crawls := db.crawls)
  {
    if |ids| > 0 {
      FlagCrawlsKeeps(db.crawls, db.tasks, runId, ids, flag);
      db.crawls := FlagCrawls(db.crawls, runId, ids, flag);
    }
  }

  /** `screenshot.updateMany` on the screenshots of the listed crawls. */
  method WriteShotFlags(db: Db, crawlIds: seq<Id>, flag: bool)
    requires db.Valid()
    modifies db
    ensures db.Valid()
    ensures db.screenshots == ShotStep(old(db.screenshots), crawlIds, flag)
    ensures db.Snapshot() == old(db.Snapshot()).(screenshots := db.screenshots)
  {
    if |crawlIds| > 0 {
      db.screenshots := FlagShots(db.screenshots, crawlIds, flag);
    }
  }

  /** `sectionScreenshot.updateMany` unpublishing the sections of the listed crawls. */
  method UnpublishSectionsOfCrawls(db: Db, crawlIds: seq<Id>)
    requires db.Valid()
    modifies db
    ensures db.Valid()
    ensures db.sections == SectionsOfCrawlsStep(old(db.sections), crawlIds)
    ensures db.Snapshot() == old(db.Snapshot()).(sections := db.sections)
  {
    if |crawlIds| > 0 {
      db.sections := FlagSectionsOfCrawls(db.sections, crawlIds, false);
    }
  }

  /** `sectionScreenshot.updateMany` on the listed sections of the run. */
  method WriteSectionFlags(db: Db, runId: Id, ids: seq<Id>, flag: bool)
    requires db.Valid()
    modifies db
    ensures db.Valid()
    ensures db.sections == SectionStep(old(db.sections), db.crawls, runId, ids, flag)
    ensures db.Snapshot() == old(db.Snapshot()).(sections := db.sections)
  {
    if |ids| > 0 {
      db.sections := FlagSections(db.sections, db.crawls, runId, ids, flag);
    }
  }

  /**
   * `saveCrawlRunPublication`: an unknown run fails before any write; so
   * does a `null` body. Setting the flag of a domain row that is missing
   * fails the transaction, which then writes nothing. Otherwise the updates
   * run in order and the run row as it now stands is returned.
   */
  method SaveCrawlRunPublication(db: Db, runId: Id, input: JsValue, now: Time, stringify: CrawlRuns.Stringify)
    returns (r: Result<CrawlRun>)
    requires db.Valid()
    modifies db
    ensures db.Valid()
    ensures r.Err? ==> db.Snapshot() == old(db.Snapshot())
    ensures runId !in old(db.crawlRuns) ==> r == Err(NotFound(RunNotFound))
    ensures runId in old(db.crawlRuns) && input.Null? ==> r == Err(Thrown(NullInput))
    ensures runId in old(db.crawlRuns) && !input.Null? ==>
      var run := old(db.crawlRuns)[runId];
      var p := ReadInput(input);
      if p.domainIsPublished.Some? && run.domainId !in old(db.domains) then r == Err(Crawls.RecordNotFound)
      else
        && db.Snapshot() == Published(old(db.Snapshot()), run, p, now, stringify)
        && runId in db.crawlRuns && r == Ok(db.crawlRuns[runId])
  {
    if runId !in db.crawlRuns {
      return Err(NotFound(RunNotFound));
    }
    if input.Null? {
      return Err(Thrown(NullInput));
    }
    var run := db.crawlRuns[runId];
    var p := ReadInput(input);
    if p.domainIsPublished.Some? && run.domainId !in db.domains {
      return Err(Crawls.RecordNotFound);
    }
    ghost var t := db.Snapshot();
    WriteDomainFlag(db, run, p);
    if TouchesRun(p) {
      db.PutRun(PublishedRun(run, p, now, stringify));
    }
    assert db.crawlRuns == RunsAfter(t.crawlRuns, run, p, now, stringify);
    WriteCrawlFlags(db, run.id, p.crawlsToPublish, true);
    WriteShotFlags(db, p.crawlsToPublish, true);
    WriteCrawlFlags(db, run.id, p.crawlsToUnpublish, false);
    WriteShotFlags(db, p.crawlsToUnpublish, false);
    UnpublishSectionsOfCrawls(db, p.crawlsToUnpublish);
    assert db.crawls == CrawlsAfter(t.crawls, run.id, p);
    WriteSectionFlags(db, run.id, p.sectionsToPublish, true);
    WriteSectionFlags(db, run.id, p.sectionsToUnpublish, false);
    r := Ok(db.crawlRuns[runId]);
  }
}
