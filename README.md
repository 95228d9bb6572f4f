# collect-api ingestion core in Dafny

This project models the core of collect-api, an HTTP API that collects web pages of registered
domains and keeps what remote extraction services report about them. The pages are screenshots,
prominent colours, detected technologies and section captures.

It covers:

- **The ingestion engine** (`src/services/ingestion.js`), in five modules:
  - `IngestionNormalize` and `IngestionColors`: the pure normalisers;
  - `Limiter`: the bounded worker pool `runWithLimit`, a class driven by start, completion and failure events;
  - `IngestionPipeline`: options, technology discovery, page selection, URL upserts and the synthesised homepage;
  - `IngestionWorker`: the set of crawl tasks of a URL, how each sub-task settles, and how the crawl and its task rows are closed;
  - `Ingestion`: `ingestDomain` from end to end.
- **The in-process job runner** `JobRunner` (`src/plugins/jobs.js`), as a class whose fields are the
  queue, the job map and the running counter. Handler completion is an external event. A pure
  `RunnerState` value carries the bookkeeping invariant.
- **The data layer the engine relies on.** `Store.Db` is a class holding one map per table, keyed by id
  or by (crawl, task type), with the unique indexes the database enforces. The modules are:
  - crawls, task patches and association replacement (`Crawls`);
  - the crawl-run lifecycle around the job handler (`CrawlRuns`);
  - URL normalisation and keyed upsert (`Normalize`, `Urls`);
  - limit clamping and the keyset cursor (`Pagination`);
  - domain find-or-create, listing and derived selection (`Domains`);
  - review and publication (`Publishing`);
  - the feed (`Feed`);
  - technology payloads (`Technologies`);
  - the error-to-HTTP mapping and reply envelopes (`Response`);
  - public URL building (`Storage`);
  - the `sqlite3` table-info parser (`MigrateSqlite`).
- **Shared modules.** `Js` models JavaScript values with truthiness, `??`, `String()` and
  `Number()`; `Text` models string built-ins; `Lists` holds list helpers; `Wrappers` holds
  `Option` and `Result`.

Remote services, the clock and fresh identifiers are parameters:

- a remote call's answer is a `Settled` value, either fulfilled with a value or rejected with a message;
- the time is one `now`;
- new ids are values, or functions from positions to ids, that are not in use yet.

Each query result the code reads from the database in an order is an input sequence in that order.

Where the system's described behaviour differs from its code, the model follows the code:

- `clampConfidence` divides every value above 1 by 100, so 1.4 becomes 0.014, not 1
  (`IngestionNormalize.ClampConfidenceExamples`).
- Every URL gets a COLORS task; no option turns it off (`IngestionWorker.TaskSet`).
- After a worker rejects, `runWithLimit` rejects but goes on starting workers for the remaining items
  as earlier ones complete (`Limiter.Pool.Completed`). A failed worker never frees its slot.
- `createCrawl` does not store the `crawlRunId` that ingestion passes, so crawls made by an
  ingestion are not linked to their run (`Crawls.CreateCrawl`, `IngestionWorker.FinishedCrawl`).
- The SECTIONS sub-task calls `crawls.setSections`, which the crawl service does not define. The
  sub-task therefore always fails, and every homepage crawl carries an error text
  (`IngestionWorker.SectionsOutcome`, `IngestionWorker.HomepageCrawlAlwaysHasError`).
- Suppose a page's URL row was already listed with another type, and the homepage upsert then retypes it
  to HOMEPAGE. The list still holds the old copy, so the worker runs that URL's crawl without SECTIONS
  (`IngestionPipeline.StaleCopyHidesHomepage`).
- The two review rules in `publishing.js` agree for times from 1970 on. They differ when a time
  before 1970 makes a baseline negative (`Publishing.ReviewRulesDifferBeforeEpoch`).
- Publishing or unpublishing crawls changes the screenshots of the listed crawls whatever run they
  belong to. Only the crawl rows are restricted to the run (`Publishing.FlagShots`).
- `saveCrawlRunPublication` with a `null` input throws a TypeError. A domain flag for a domain that no
  longer exists fails with Prisma's P2025, and the transaction writes nothing
  (`Publishing.SaveCrawlRunPublication`).

## Model

| member | source | states |
|---|---|---|
| Normalize.WithScheme | src/lib/normalize.js:1-5 | empty text stays empty; an address already on `http://` or `https://` is unchanged; any other gains a scheme and ends with the input |
| Normalize.WithSchemeIdempotent | src/lib/normalize.js:1-5 | adding the scheme twice gives the same text as adding it once |
| Normalize.NormalizeDomainInput | src/lib/normalize.js:7-14 | fails exactly when the URL parser refuses the schemed input; the host is the parser's host lowercased; the canonical address is `https://` + host whatever scheme was given |
| Normalize.DomainInputIgnoresScheme | src/lib/normalize.js:7-14 | the `http://` and `https://` forms of an address give the same domain record |
| Normalize.NormalizePath | src/lib/normalize.js:19-25 | the path is never empty; an empty pathname becomes `/`; exactly one trailing `/` is dropped unless the path is `/`; any other path is kept |
| Normalize.NormalizePathOneSlash | src/lib/normalize.js:21 | a path ending in `//` loses only one slash and keeps a trailing `/`, and normalising it again removes one more |
| Normalize.NormalizePathStable | src/lib/normalize.js:21 | normalising a path twice changes nothing unless it ended in two slashes |
| Normalize.NormalizeUrlInput | src/lib/normalize.js:16-28 | fails exactly when the parser refuses; host lowercased, path normalised, and `normalizedUrl` is `https://` + host + path, so query and fragment are dropped |
| Pagination.ClampLimit | src/lib/pagination.js:1-5 | a value that is not finite after `Number()` gives the fallback unclamped; a finite one lands in [min, max], and one already inside is returned unchanged |
| Pagination.ClampLimitWhole | src/lib/pagination.js:4 | a whole-number limit stays whole after clamping |
| Pagination.ClampLimitWithin | src/lib/pagination.js:4 | a whole limit within the bounds is taken unchanged |
| Pagination.EncodeCursor | src/lib/pagination.js:7-10 | no cursor exactly for a falsy value |
| Pagination.DecodeCursor | src/lib/pagination.js:12-16 | a missing or empty parameter decodes to null; decoding fails exactly for text that is not an issued cursor |
| Pagination.CursorRoundTrip | src/lib/pagination.js:7-16 | decoding an issued cursor gives back the value that was encoded |
| Pagination.MakeCreatedAtCursorWhere | src/lib/pagination.js:18-31 | no filter exactly when the cursor is missing, its date is invalid or its id is empty; otherwise the filter is "before (createdAt, id)" |
| Pagination.ReadCursor | src/lib/pagination.js:18-21 | a falsy decoded value gives no cursor; otherwise the date is the parsed `createdAt` and the id is the `id` field |
| Pagination.IssuedCursorFilter | src/lib/pagination.js:7-31 | a cursor issued for a row key decodes and becomes the filter "before exactly that key" |
| Pagination.AcceptsIsKeyLt | src/lib/pagination.js:23-30 | the `OR` filter accepts a row exactly when (createdAt, id) is strictly below the cursor's pair |
| Pagination.Select | src/lib/pagination.js:23-30 | the rows kept are exactly the accepted ones |
| Pagination.SelectKeepsOrder | src/lib/pagination.js:23-30 | the accepted rows keep their listing order: they are a sub-sequence of the rows |
| Pagination.SelectAfterCursor | src/lib/pagination.js:23-30 | in (createdAt desc, id desc) order, the filter built from row k keeps exactly the rows after k, so the cursor row itself is excluded |
| Pagination.AllAccepted | src/lib/pagination.js:23-30 | rows all below the cursor key are all kept |
| Pagination.EverythingKeepsAll | src/lib/pagination.js:19 | the empty filter keeps every row |
| Pagination.Take | src/services/urls.js:95 | `take: limit` keeps a prefix of the rows, no longer than the limit, and cuts only when the limit is reached |
| Pagination.NextCursor | src/services/urls.js:98-101 | a next cursor exactly when the page is full (and not empty), naming its last row's (createdAt, id) |
| Pagination.Page | src/services/urls.js:92-96 | a page is never longer than the rows or than the limit |
| Pagination.PageAfterIssuedCursor | src/lib/pagination.js:12-30 | the issued cursor of row n-1 decodes, and the page asked for with it is the rows after row n-1, cut to the limit |
| Pagination.NextPageContinues | src/services/urls.js:81-103 | the cursor of a full first page selects exactly the rows after that page |
| Pagination.FirstPage | src/services/urls.js:92-101 | without a cursor a page is the first `limit` rows, and a full page names its last row |
| Urls.InvalidUrlFailure | src/services/urls.js:24-26 | a normalisation failure becomes a bad request carrying its message, or `Invalid URL` when it has none |
| Urls.UpsertedUrl | src/services/urls.js:28-41 | keyed on `normalizedUrl`: an existing row keeps id, domain, path and creation time and changes only the given type and canonical flag; a new row takes the new id, the domain, the path, `OTHER` and `false` by default |
| Urls.OneRowPerAddress | src/services/urls.js:28-29 | two rows with the same normalised address are the same row |
| Urls.UpsertRepeated | src/services/urls.js:28-41 | repeating the upsert of an address returns the same row and adds no second one |
| Urls.UpsertUrlForDomain | src/services/urls.js:17-42 | an unknown domain fails with not found and a refused address with bad request, both before any write; otherwise the upserted row is stored under its id and indexed by its address, and nothing else changes |
| Urls.ListUrlsForDomain | src/services/urls.js:44-56 | an unknown domain fails with not found; otherwise the domain's rows (of the given type only when one is given) in order, all of them without a limit, else cut to the clamped limit |
| Urls.FilterUrls | src/services/urls.js:48-52 | keeps exactly the rows of the domain (and of the type when one is given), in table order |
| Urls.FilterCrawls | src/services/urls.js:86-90 | keeps exactly the URL's crawls (of the status when one is given), in table order |
| Urls.FilterCrawlsOrdered | src/services/urls.js:86-94 | filtering keeps the (createdAt desc, id desc) order |
| Urls.ListUrlCrawls | src/services/urls.js:81-104 | fails exactly for a corrupt cursor; otherwise one page of the filtered crawls after the cursor, at most the clamped limit (1 to 200, default 20), with a next cursor exactly when the page is full |
| Urls.CrawlPagesContinue | src/services/urls.js:81-104 | following the next cursor of a full first page gives the next rows, with no row repeated or skipped |
| Domains.FindOrCreate | src/services/domains.js:10-15 | a domain is created exactly when its host is not stored yet; an existing one is returned as stored; a new one takes the normalised host and canonical address |
| Domains.FindOrCreateAgain | src/services/domains.js:10-15 | creating the same domain twice finds the first row the second time and creates nothing |
| Domains.CreateDomain | src/services/domains.js:6-64 | an input the normaliser refuses writes nothing; otherwise status 201 exactly when the domain was created (else 200) and an existing domain is never modified; the homepage URL (HOMEPAGE, canonical) is upserted exactly when asked for; the initial PENDING crawl with its five tasks exists exactly when asked for and a homepage URL exists; the other tables are untouched |
| Domains.EnsureDomain | src/services/domains.js:10-15 | the find-or-create result is stored, and only the domain tables change |
| Domains.EnsureHomepage | src/services/domains.js:17-31 | with a homepage to upsert, the row is upserted as HOMEPAGE and canonical; without one nothing changes |
| Domains.MaybeInitialCrawl | src/services/domains.js:33-51 | a PENDING crawl with one task each of SCREENSHOT, TECHNOLOGIES, CATEGORIES, CONTENT and COLORS is created exactly when it is wanted and a homepage URL exists |
| Domains.FilterHosts | src/services/domains.js:71-74 | keeps exactly the domains whose host contains the search text, or all of them without a search, in table order |
| Domains.FilterHostsOrdered | src/services/domains.js:71-79 | filtering by host keeps the (createdAt desc, id desc) order |
| Domains.MappedHomepage | src/services/domains.js:128-132 | the homepage shown with a domain is the last of the domain's HOMEPAGE rows listed (a later row replaces an earlier one in the map), or none when it has none |
| Domains.CrawlTasks | src/services/domains.js:120 | the included tasks are exactly the crawl's task rows |
| Domains.NewestShot | src/services/domains.js:121 | at most one screenshot: the first of the crawl's screenshots newest first, and none exactly when the crawl has none |
| Domains.LinkedCategories | src/services/domains.js:122 | each of the crawl's category links whose category exists, paired with that category, and nothing else |
| Domains.IncludeHomepage | src/services/domains.js:113-126 | the homepage URL with at most one crawl: none exactly when the URL has no crawl, else its newest crawl of any status with that crawl's tasks, newest screenshot and linked categories |
| Domains.HomepageEntry | src/services/domains.js:128-132 | `null` exactly when the domain has no mapped homepage, else that homepage with its includes |
| Domains.Items | src/services/domains.js:129-133 | one item per page row, in row order |
| Domains.PageRows | src/services/domains.js:67-80 | a page never has more than 100 rows |
| Domains.ListDomains | src/services/domains.js:66-136 | fails exactly for a corrupt cursor; otherwise one item per row of the page (clamped limit, max 100, default 20), in page order, each with its URL count (0 when none) and, exactly when asked for, the mapped homepage with its includes or `null` when the domain has none; a next cursor exactly when the page is full, naming the last row's createdAt and id |
| Domains.ListDomainsAtMost100 | src/services/domains.js:67 | a listing never has more than 100 items |
| Domains.FirstPageRows | src/services/domains.js:67-80 | without a cursor, a limit of n lists the first n matching domains |
| Domains.NextPageRows | src/services/domains.js:66-88 | the cursor of the n-th matching domain is issued, and a limit of n with it lists the next n matching domains |
| Domains.DomainPagesContinue | src/services/domains.js:66-88 | a full first page lists the first matching domains, and the page asked for with its cursor lists exactly the matching domains after them, so none is skipped or listed twice |
| Domains.FirstPageListed | src/services/domains.js:66-88 | without a cursor, a full first page of n lists the first n matching domains, in order, and issues the cursor of the n-th |
| Domains.NextPageListed | src/services/domains.js:66-88 | the cursor of the n-th matching domain decodes, and the page asked for with it lists exactly the next n matching domains, in order |
| Domains.HomepageUrl | src/services/domains.js:183-188 | the homepage is the first of the domain's HOMEPAGE rows in creation order, or none when it has none |
| Domains.LatestCrawl | src/services/domains.js:203-206 | the crawl chosen is the first of the URL's crawls in newest-first order (successful ones only when asked), or none when there is none |
| Domains.GetDerivedFromHomepage | src/services/domains.js:190-224 | without a homepage every field is empty; otherwise its latest crawl (successful only by default); without a crawl no category, technology or screenshot; with one, the crawl's linked categories and technologies in link order with dangling links dropped, the primary category the first link of highest confidence (an absent confidence counting as 0), and the screenshot the newest of the crawl's own |
| Domains.LinkedAt | src/services/domains.js:208-209 | the increasing positions of exactly the links whose slug names a stored row |
| Domains.Named | src/services/domains.js:208-209 | one stored row per link whose slug exists, in link order: the k-th is the row of the k-th such link |
| Domains.FilterShots | src/services/domains.js:214 | keeps exactly the screenshots of the crawl, in table order |
| Feed.FeedPageSize | src/services/feed.js:6-11 | the page is a prefix of the domains newest first, at most 100, never empty when a domain exists, and 20 long when no usable limit is given |
| Feed.FirstHomepage | src/services/feed.js:30-35 | the row kept for a domain is one of its rows, or none when it has none |
| Feed.FirstHomepageSnoc | src/services/feed.js:31-34 | one more row settles a domain only when the domain had no row yet |
| Feed.FirstHomepageIsEarliest | src/services/feed.js:30-35 | the first row of a domain in query order wins; later ones are ignored |
| Feed.HomepageByDomain | src/services/feed.js:30-35 | the loop maps exactly the domains that have a row, each to its first row |
| Feed.HomepageOf | src/services/feed.js:38-52 | the homepage part has the URL's newest crawl; that crawl's newest screenshot, none exactly when it has none; and the first category link of highest confidence (an absent one counting as 0) with its confidence, none when the crawl has no link |
| Feed.ItemOf | src/services/feed.js:37-54 | an item keeps its domain and has a homepage part exactly when the domain has a HOMEPAGE row, that row being one of the domain's |
| Feed.LatestSites | src/services/feed.js:5-58 | one item per domain of the page, in page order, each built from that domain |
| Feed.ShotIsNewest | src/services/feed.js:23 | the screenshot picked among a crawl's own is not older than any other of them, and there is none exactly when the crawl has none |
| Technologies.ExtensionForContentType | src/services/technologies.js:4-11 | a case-insensitive match with svg before png before jpeg or jpg before webp, `bin` otherwise, each answer given exactly in its case |
| Technologies.NormalizeText | src/services/technologies.js:13-16 | null exactly for a non-string or a blank string; otherwise the trimmed, non-empty text |
| Technologies.NormalizeTextIdempotent | src/services/technologies.js:13-16 | normalising normalised text gives it back |
| Technologies.TrimIdempotent | src/services/technologies.js:14 | trimming twice is trimming once |
| Technologies.WithIcon | src/services/technologies.js:33-57 | a row that has an icon, or whose icon step failed, is unchanged; otherwise it gains the key `technology-icons/<slug>.<ext>` and that key's public URL; slug, name and address are kept |
| Technologies.PayloadItem | src/services/technologies.js:21-25 | a payload is refused exactly when its slug or name normalises to null; an accepted one has non-empty slug and name |
| Technologies.UpsertTechnology | src/services/technologies.js:20-58 | a refused payload fails with 400 before any write; otherwise the row is upserted by slug and, unless it has an icon, the icon step's outcome is applied, a failure being swallowed; only that technology row changes |
| Technologies.IconStoredOnce | src/services/technologies.js:33 | a row that already has its icon keeps it on a repeated upsert |
| Crawls.TaskRows | src/services/crawls.js:11 | exactly one PENDING task row per requested type, all under the new crawl |
| Crawls.CreateCrawl | src/services/crawls.js:3-15 | an unknown URL fails with 404 and writes nothing; a repeated task type fails with P2002 and writes nothing; otherwise a PENDING crawl without a run is added with its task rows and nothing else changes |
| Crawls.InsertCrawl | src/services/crawls.js:7-14 | the crawl row and its task rows are added and nothing else changes |
| Crawls.AddCrawlKeeps | src/services/crawls.js:7-14 | adding a crawl under a fresh id with its tasks keeps the tables keyed, keeps every existing task and gives the crawl exactly the requested tasks |
| Crawls.ApplyCrawlPatch | src/services/crawls.js:57-67 | a patch never changes the crawl's id, URL, run or creation time; the patch has one entry for each of the eleven columns the route accepts (status, the three dates, httpStatus, finalUrl, title, metaDescription, language, contentHash, error) |
| Crawls.CrawlPatchesCompose | src/services/crawls.js:57-67 | the empty patch changes nothing, and two patches in a row act as their merge |
| Crawls.PatchCrawl | src/services/crawls.js:57-67 | an unknown crawl fails with P2025 and writes nothing; otherwise only that crawl row changes, to the patched row |
| Crawls.ApplyTaskPatch | src/services/crawls.js:69-88 | the status and error change only when given; RUNNING counts one more attempt and stamps start and last attempt; SUCCESS or FAILED stamps the finish; nothing else changes the attempts or times |
| Crawls.AttemptsCountRunning | src/services/crawls.js:78-84 | after a series of patches, the attempts have grown by exactly the number of RUNNING patches |
| Crawls.PatchTask | src/services/crawls.js:69-88 | an unknown (crawl, type) fails with P2025 and writes nothing; otherwise only that task row changes, to the patched row |
| Crawls.UpsertCategory | src/services/crawls.js:116-120 | the category of that slug takes the item's name; every other category is kept |
| Crawls.UpsertCategoriesLastWins | src/services/crawls.js:115-125 | after the loop, a slug's category carries the name of the last item with that slug |
| Crawls.UpsertCategoriesKeeps | src/services/crawls.js:115-125 | a slug no item names is kept as it was, or stays absent |
| Crawls.Associations | src/services/crawls.js:118-150 | one association row per item, in item order, each the link the item's `create` writes (its slug and confidence), for categories and technologies alike |
| Crawls.UpsertCategoryRows | src/services/crawls.js:114-127 | the loop leaves the category table upserted by every item, and returns one row per item with its category and confidence; with distinct slugs each row holds the table's final category for its slug |
| Crawls.SetCategories | src/services/crawls.js:107-131 | an unknown crawl fails with 404 and writes nothing; two items with the same slug fail with P2002 on the (crawl, category) key and write nothing; otherwise the crawl's old links are replaced by one per item, the categories are upserted, the result lists each item's stored category and confidence in item order, and nothing else changes |
| Crawls.UpsertTechnology | src/services/crawls.js:142-146 | the technology of that slug takes the item's name; every other technology is kept |
| Crawls.UpsertTechnologiesLastWins | src/services/crawls.js:141-151 | after the loop, a slug's technology carries the name of the last item with that slug |
| Crawls.UpsertTechnologiesKeeps | src/services/crawls.js:141-151 | a slug no item names is kept as it was, or stays absent |
| Crawls.UpsertTechnologyRows | src/services/crawls.js:140-153 | the loop leaves the technology table upserted by every item, and returns one row per item with its technology and confidence; with distinct slugs each row holds the table's final technology for its slug |
| Crawls.SetTechnologies | src/services/crawls.js:133-157 | an unknown crawl fails with 404 and writes nothing; two items with the same slug fail with P2002 on the (crawl, technology) key and write nothing; otherwise the crawl's old links are replaced by one per item, the technologies are upserted, the result lists each item's stored technology and confidence in item order, and nothing else changes |
| CrawlRuns.NewRun | src/services/crawl-runs.js:15-21 | a new run is PENDING, unpublished, without job, error, start or finish, and carries the serialised options |
| CrawlRuns.JobInput | src/services/crawl-runs.js:24 | the job input names the domain, the run and the options |
| CrawlRuns.Linked | src/services/crawl-runs.js:62-65 | linking sets the job id and changes nothing else |
| CrawlRuns.Running | src/services/crawl-runs.js:26-29 | starting makes the run RUNNING with its start time and changes nothing else |
| CrawlRuns.Settled | src/services/crawl-runs.js:38-56 | a resolved ingestion makes the run SUCCESS with no error; a thrown one makes it FAILED with the message, or the default text when the message is falsy; both stamp the finish and change nothing else |
| CrawlRuns.LinkCommutes | src/services/crawl-runs.js:23-65 | linking the job commutes with starting and with settling, so the handler's writes and the link can land in either order |
| CrawlRuns.Lifecycle | src/services/crawl-runs.js:26-58 | a started then settled run is SUCCESS exactly when ingestion resolved, FAILED with an error exactly when it threw, with both times stamped and its identity kept |
| CrawlRuns.WithRunId | src/services/crawl-runs.js:47 | the handler's result is the ingestion result with `crawlRunId` added and every other key kept |
| CrawlRuns.HandlerOutcome | src/services/crawl-runs.js:31-58 | a resolved ingestion returns the result with the run id; a thrown error is rethrown |
| CrawlRuns.FailedIngestionFailsJob | src/services/crawl-runs.js:57 | a failed ingestion fails the job with the same message |
| CrawlRuns.IngestedJobNamesRun | src/services/crawl-runs.js:47 | a resolved ingestion makes the job SUCCEEDED with a result naming the run |
| CrawlRuns.RequestDomainCrawlRun | src/services/crawl-runs.js:11-68 | an unknown domain fails with 404 before any run or job exists; otherwise a PENDING run with the serialised options is stored linked to the enqueued DOMAIN_INGESTION job, whose input names domain, run and options |
| CrawlRuns.StartRun | src/services/crawl-runs.js:26-29 | the run row becomes its started form and nothing else changes; a missing run fails with P2025 |
| CrawlRuns.FinishRun | src/services/crawl-runs.js:31-58 | the run row becomes its settled form and the handler returns or rethrows accordingly; nothing else changes |
| CrawlRuns.RunsTake | src/services/crawl-runs.js:74 | the take is between 1 and 200, 50 when the limit is NaN or zero, and the limit itself when it is already in range |
| CrawlRuns.FilterRuns | src/services/crawl-runs.js:76 | keeps exactly the runs of the domain, of the status when one is given, in table order |
| CrawlRuns.ListCrawlRunsForDomain | src/services/crawl-runs.js:70-80 | fails exactly for an unknown domain; otherwise the first rows of the filtered list, as many as the take allows |
| Jobs.NewJob | src/plugins/jobs.js:34-45 | a new job is QUEUED at stage `queued`, with no start, finish, result or error |
| Jobs.Assign | src/plugins/jobs.js:26-31 | a patch never changes a job's id, type, input or creation time |
| Jobs.SettlePatch | src/plugins/jobs.js:70-82 | a returned handler gives SUCCEEDED with its result; a thrown one gives FAILED with the message, or `Job failed` when the message is falsy; both stamp the finish |
| Jobs.InsertDescending | src/plugins/jobs.js:19 | inserting into a newest-first list keeps it newest first and adds exactly the one job |
| Jobs.SortDescending | src/plugins/jobs.js:19 | the sort is descending by the key and a permutation of its input |
| Jobs.SortNewestFirst | src/plugins/jobs.js:19 | jobs are ordered newest first and none is lost or duplicated |
| Jobs.StartNextKeeps | src/plugins/jobs.js:54-56 | starting the head of the queue into a free slot keeps the bookkeeping (queue is the unstarted suffix of enqueue order, counter equals in-flight handlers, at most the concurrency) and keeps queued-iff-QUEUED |
| Jobs.StartManyTakesFront | src/plugins/jobs.js:54-56 | k turns of the drain loop take exactly the first k queued jobs and add k to the running count |
| Jobs.PushKeeps | src/plugins/jobs.js:47-48 | registering a fresh job at the back of the queue keeps the bookkeeping and queued-iff-QUEUED |
| Jobs.ReleaseKeeps | src/plugins/jobs.js:57-58 | a settling handler frees its slot and keeps the bookkeeping; a settled job is no longer QUEUED |
| Jobs.PushThenDrain | src/plugins/jobs.js:47-49 | an enqueue followed by a drain starts the new job at once exactly when a slot is free, and otherwise leaves it queued |
| Jobs.ReleaseThenDrain | src/plugins/jobs.js:57-60 | after a handler settles, the drain starts at most the next queued job, which is never the settled one, and the settled job keeps its final state |
| Jobs.JobRunner.constructor | src/plugins/jobs.js:14-16 | a new runner is empty, with nothing running, and satisfies the invariant |
| Jobs.JobRunner.Get | src/plugins/jobs.js:22-24 | null exactly for an unknown id, else the registered job |
| Jobs.JobRunner.Values | src/plugins/jobs.js:19 | the registry's jobs in insertion order |
| Jobs.JobRunner.List | src/plugins/jobs.js:18-20 | every registered job, newest first, each exactly once |
| Jobs.JobRunner.Update | src/plugins/jobs.js:26-31 | an unknown id returns null and changes nothing; otherwise only that job is merged with the patch; the queue and counter are untouched; without a status patch queued-iff-QUEUED is kept |
| Jobs.JobRunner.StartHead | src/plugins/jobs.js:54-66 | the head leaves the queue, takes a slot and becomes RUNNING |
| Jobs.JobRunner.Drain | src/plugins/jobs.js:53-62 | the loop starts the queued jobs from the front until no slot is free or the queue is empty, never exceeding the concurrency |
| Jobs.JobRunner.Register | src/plugins/jobs.js:47-48 | the job is registered and appended to the queue |
| Jobs.JobRunner.Settle | src/plugins/jobs.js:57-82 | the job takes its final state and its slot is freed |
| Jobs.JobRunner.Enqueue | src/plugins/jobs.js:33-51 | the new job is registered; it starts at once exactly when a slot was free, otherwise it waits at the back of the queue; queued-iff-QUEUED is kept |
| Jobs.JobRunner.Finish | src/plugins/jobs.js:57-83 | the finished job takes its settled state and is no longer in flight; the next queued job, if any, takes the freed slot and becomes RUNNING with startedAt now; every other job is unchanged and no job appears or disappears; the handler's failure is never rethrown |
| Jobs.SettledRecord | src/plugins/jobs.js:70-82 | a settled job keeps its id, input, creation and start time and gets finishedAt now; a returned value gives SUCCEEDED with that result; a throw gives FAILED with the thrown message, or `Job failed` for an empty or missing one |
| Limiter.Concurrency | src/services/ingestion.js:229 | the concurrency is between 1 and 50, 1 for NaN or zero, and the limit itself when already in range |
| Limiter.Slots | src/services/ingestion.js:237 | the number of workers `active < concurrency` admits is the concurrency rounded up |
| Limiter.BelowSlots | src/services/ingestion.js:237 | a count is below the concurrency exactly when it is below the slot count |
| Limiter.Pool.Collected | src/services/ingestion.js:242 | the results are in item order, the i-th being the i-th worker's value |
| Limiter.Pool.constructor | src/services/ingestion.js:228-250 | no items resolves `[]` at once; otherwise the first workers start, as many as the slots allow, and the pool is pending |
| Limiter.Pool.Next | src/services/ingestion.js:235-248 | with every item done and nothing active the pool resolves with the collected results (a settled pool stays as it was); otherwise workers start in item order until the slots are full or no item is left |
| Limiter.Pool.Completed | src/services/ingestion.js:241-245 | a worker's value is recorded at its item's index and its slot freed; while items remain another worker starts, also after a rejection; the last completion resolves a pending pool |
| Limiter.Pool.Failed | src/services/ingestion.js:246 | the first failure rejects the pool with its reason and later ones change nothing; the failed worker keeps its slot |
| IngestionNormalize.StripWww | src/services/ingestion.js:4-8 | the result is lower case, a suffix of the lowercased host, and at most four characters shorter |
| IngestionNormalize.StripWwwPrefix | src/services/ingestion.js:4-8 | one leading `www.`, in either case, is dropped and the rest lowercased |
| IngestionNormalize.StripWwwCaseInsensitive | src/services/ingestion.js:4-8 | the host's case does not change the result |
| IngestionNormalize.LowerKey | src/services/ingestion.js:11 | a falsy value gives the empty key |
| IngestionNormalize.GuessUrlType | src/services/ingestion.js:10-30 | no URL type exactly for the keys `constructor` and `__proto__`, which the object literal inherits; HOMEPAGE exactly for `homepage`, `home` and `index` in any case; OTHER exactly for a key the table does not list; a falsy value is OTHER |
| IngestionNormalize.LowerKeyOfString | src/services/ingestion.js:11 | a string's key is the string lowercased |
| IngestionNormalize.GuessUrlTypeIgnoresCase | src/services/ingestion.js:10-30 | the type does not depend on the case of the raw value |
| IngestionNormalize.PageOf | src/services/ingestion.js:41-45 | a kept page has a non-empty address |
| IngestionNormalize.NormalizePagesResult | src/services/ingestion.js:32-46 | never more pages than the list had, each with a non-empty address |
| IngestionNormalize.NormalizePagesMembers | src/services/ingestion.js:32-46 | a page is in the result exactly when some list entry maps to it |
| IngestionNormalize.ClampConfidence | src/services/ingestion.js:48-54 | absent exactly for null, undefined or a non-finite number; otherwise in [0, 1]: values in [0, 1] kept, values in (1, 100] divided by 100, negatives 0 |
| IngestionNormalize.ClampConfidenceExamples | src/services/ingestion.js:48-54 | 85 gives 0.85, 1.4 gives 0.014, -0.2 gives 0 and null gives none |
| IngestionNormalize.ClampConfidenceOfDigits | src/services/ingestion.js:48-54 | a string of digits n gives 0 for 0, 1 for 1, and n/100 clamped to 1 otherwise |
| IngestionNormalize.DropNonSlug | src/services/ingestion.js:60-61 | drops a leading run of non-slug characters and keeps the rest |
| IngestionNormalize.CollapseRuns | src/services/ingestion.js:60 | every run of characters outside `[a-z0-9]` becomes one `-`, so no `--` remains and only slug characters and `-` appear |
| IngestionNormalize.StripDashes | src/services/ingestion.js:61 | drops one leading and one trailing `-`, giving a slug; text without them is unchanged |
| IngestionNormalize.SlugifyText | src/services/ingestion.js:57-61 | the result has only `[a-z0-9-]`, with no leading, trailing or doubled `-` |
| IngestionNormalize.Slugify | src/services/ingestion.js:56-62 | the result of any value is such a slug |
| IngestionNormalize.CollapseRunsOfSlug | src/services/ingestion.js:60 | collapsing text that is already collapsed changes nothing |
| IngestionNormalize.SlugifyTextOfSlug | src/services/ingestion.js:57-61 | a slug slugifies to itself |
| IngestionNormalize.SlugTrimLower | src/services/ingestion.js:58-59 | trimming and lowercasing leave a slug unchanged |
| IngestionNormalize.SlugifyIdempotent | src/services/ingestion.js:56-62 | slugifying a slug gives it back |
| IngestionNormalize.TechOf | src/services/ingestion.js:73-87 | a kept technology has a non-empty slug and name and a confidence in [0, 1] |
| IngestionNormalize.NormalizeTechnologiesResult | src/services/ingestion.js:64-89 | never more technologies than the list had, each well formed |
| IngestionNormalize.NormalizeTechnologiesMembers | src/services/ingestion.js:64-89 | a technology is in the result exactly when some list entry maps to it |
| IngestionNormalize.NormalizeTechnologiesScope | src/services/ingestion.js:91-100 | PER_URL exactly for the six spellings after trimming and lowercasing; otherwise HOMEPAGE |
| IngestionNormalize.IsShopifyFromTechnologies | src/services/ingestion.js:102-107 | true exactly when some technology has slug `shopify` or a name containing it in any case |
| IngestionNormalize.NonEmptySlugs | src/services/ingestion.js:110 | the non-empty slugs, all of them in order when none is empty |
| IngestionNormalize.PickTechnologiesForPagesFinder | src/services/ingestion.js:109-112 | the first `limit` non-empty slugs, in order |
| IngestionNormalize.ExtensionForContentType | src/services/ingestion.js:114-119 | png when the lowercased type mentions png; jpg when it mentions jpeg or jpg and not png; bin otherwise |
| IngestionColors.ColorText | src/services/ingestion.js:122 | the trimmed text never ends in white space |
| IngestionColors.CssColorOf | src/services/ingestion.js:123-132 | a colour is returned exactly for `0x` + six hex digits, three or six bare hex digits, `#` + three to eight hex digits, or an `rgb(`/`hsl(` form; every colour returned is in stored form |
| IngestionColors.NormalizeCssColor | src/services/ingestion.js:121-133 | every colour returned is in stored form (lower-case `#` hex, or a functional form) |
| IngestionColors.CssColorIdempotent | src/services/ingestion.js:121-133 | a colour in stored form normalises to itself |
| IngestionColors.NormalizeCssColorIdempotent | src/services/ingestion.js:121-133 | normalising a normalised colour gives it back |
| IngestionColors.CssColorPrefixed | src/services/ingestion.js:124-126 | `0x` or `0X` followed by six hex digits is stored as `#` and the digits lowercased |
| IngestionColors.CssColorRefusesWords | src/services/ingestion.js:127-132 | a word of letters not starting with a hex digit, such as a colour name, is refused |
| IngestionColors.Round | src/services/ingestion.js:138 | rounds half up: the result is within half a unit below and strictly less than half a unit above |
| IngestionColors.ClampByte | src/services/ingestion.js:135-141 | a byte exactly when the number is finite and rounds into [0, 255], and then it is the rounded number |
| IngestionColors.HexDigitChar | src/services/ingestion.js:149 | a digit below 16 becomes a lower-case hex digit |
| IngestionColors.HexDigitValue | src/services/ingestion.js:149 | a lower-case hex digit has a value below 16 |
| IngestionColors.Hex2 | src/services/ingestion.js:149 | a byte becomes two lower-case hex digits, zero-padded |
| IngestionColors.Hex2RoundTrip | src/services/ingestion.js:149 | reading the two digits back gives the byte |
| IngestionColors.RgbToHex | src/services/ingestion.js:143-151 | a colour exactly when all three channels clamp to bytes; it is `#` and six lower-case hex digits |
| IngestionColors.RgbToHexRoundTrip | src/services/ingestion.js:143-151 | reading the colour back gives the three clamped channels |
| IngestionColors.ChannelColor | src/services/ingestion.js:169-176 | a colour taken from the `rgb` or channel fields is in stored form |
| IngestionColors.ProminentColorValueIsStored | src/services/ingestion.js:153-179 | any colour found in a value is in stored form |
| IngestionColors.ProminentColorValueStable | src/services/ingestion.js:153-165 | a stored colour, bare or under `hex`, is found unchanged |
| IngestionColors.HexFieldDecides | src/services/ingestion.js:165 | a truthy `hex` field decides the colour by itself |
| IngestionColors.ProminentColorUnwraps | src/services/ingestion.js:166-167 | a truthy `value` or `color` field is unwrapped |
| IngestionColors.ProminentColorRgbObject | src/services/ingestion.js:175 | with `r`, `g` or `b` present and no earlier field, the colour comes from those channels |
| IngestionColors.ProminentColorNamedChannels | src/services/ingestion.js:176 | with only `red`, `green` or `blue` present, the colour comes from those channels |
| IngestionColors.FirstPresent | src/services/ingestion.js:182-215 | the `??` chain yields null only when every candidate is nullish |
| IngestionColors.FirstPresentIsFirst | src/services/ingestion.js:182-215 | the chain yields the first non-nullish candidate, and one exactly when some exists |
| IngestionColors.NormalizeProminentColorResult | src/services/ingestion.js:181-218 | any colour found in an extractor result is in stored form |
| IngestionColors.FirstCandidateDecides | src/services/ingestion.js:183 | a present `signatureColor.hex` decides the colour |
| IngestionPipeline.MinMax | src/services/ingestion.js:259-263 | `Math.max(lo, Math.min(n, hi))`: NaN stays NaN; any other result is in [lo, hi]; a value in range is kept; +Infinity gives hi |
| IngestionPipeline.UrlConcurrencyBounds | src/services/ingestion.js:260-263 | the URL concurrency handed to the pool is between 1 and 20, 1 when the option is not a number, and 3 when it is absent |
| IngestionPipeline.SliceEnd | src/services/ingestion.js:336 | `slice(0, end)` keeps at most the whole list, nothing for NaN or -Infinity, the integer part of a non-negative end, and a negative end counted back from the length |
| IngestionPipeline.ShopifyOption | src/services/ingestion.js:271-274 | the Shopify flag is taken from the options exactly when it is a boolean |
| IngestionPipeline.Discover | src/services/ingestion.js:265-308 | a boolean option always wins and the flag is always decided; without detection nothing is detected; a rejected detection leaves no technologies and an undecided flag false; a fulfilled one gives the normalised technologies and decides an open flag from them |
| IngestionPipeline.PagesFinderTechnologies | src/services/ingestion.js:310-326 | the pages finder gets between 1 and 50 slugs, or none exactly when no slug was picked |
| IngestionPipeline.SameHost | src/services/ingestion.js:331-335 | the filter throws only the invalid-URL error and never adds pages |
| IngestionPipeline.SameHostThrows | src/services/ingestion.js:331-335 | the filter throws exactly when some page's address does not parse |
| IngestionPipeline.SameHostKeeps | src/services/ingestion.js:331-335 | a page is kept exactly when its host equals the domain's after lowercasing and dropping one `www.` |
| IngestionPipeline.SelectPages | src/services/ingestion.js:329-336 | throws exactly when some page's address does not parse; otherwise exactly the same-host pages cut at the `slice` end of `maxUrls`, so at most `maxUrls` of them and none when `maxUrls` is not a number |
| IngestionPipeline.SelectedOnDomain | src/services/ingestion.js:331-336 | every selected page was found and is on the domain's host |
| IngestionPipeline.InvalidUrlPastTheCut | src/services/ingestion.js:331-336 | an unparsable page after the cut still fails the ingestion, since the filter runs before the slice |
| IngestionPipeline.PagePayload | src/services/ingestion.js:344-349 | a page with a URL type is upserted with that type, canonical exactly when HOMEPAGE |
| IngestionPipeline.PageFailure | src/services/ingestion.js:343-349 | a page's upsert throws exactly when its address is refused (that error first) or its label has no URL type (the database client's refusal of the `type` argument) |
| IngestionPipeline.UpsertedIdIsOldOrNew | src/services/urls.js:28-41 | an upsert returns an existing row or the new id |
| IngestionPipeline.FirstRefused | src/services/ingestion.js:342-351 | the first page whose upsert throws, every earlier one going through; none when all go through |
| IngestionPipeline.UpsertPage | src/services/ingestion.js:343-350 | fails exactly when the page's upsert throws, with that error and no row written; otherwise the returned row is in the table and fits the page; only URL rows change and none is removed |
| IngestionPipeline.FirstRefusedAt | src/services/ingestion.js:342-351 | the first refused page is found where it is |
| IngestionPipeline.ProgressStep | src/services/ingestion.js:342-351 | one more upserted page keeps the loop's account of the listed rows |
| IngestionPipeline.UpsertPages | src/services/ingestion.js:342-351 | fails with the first refused page's error exactly when one is refused (its address, or a label with no URL type); otherwise one listed row per page, fitting it, with only URL rows changed |
| IngestionPipeline.WithHomepage | src/services/ingestion.js:359 | the homepage's id is listed; it is put in front exactly when its id was not listed yet, and the list is kept behind it |
| IngestionPipeline.HomepageAddedFirst | src/services/ingestion.js:353-360 | a homepage added in front makes the list have a HOMEPAGE URL |
| IngestionPipeline.StaleCopyHidesHomepage | src/services/ingestion.js:353-360 | when the homepage's row was already listed as OTHER, the upsert retypes it to HOMEPAGE in the table while the list keeps the stale OTHER copy |
| IngestionPipeline.AddHomepage | src/services/ingestion.js:353-360 | fails exactly when the canonical homepage address is refused; without a HOMEPAGE URL, the canonical homepage is upserted and put in front of the list at most once, the given rows following unchanged; a row put in front has the canonical address and is HOMEPAGE and canonical |
| IngestionPipeline.PreparedWithFront | src/services/ingestion.js:353-360 | putting at most the canonical homepage row in front of the pages' rows keeps each page's row at its place |
| IngestionPipeline.PrepareUrls | src/services/ingestion.js:342-360 | fails with the first refused page's error, else with the refused homepage address; otherwise the rows end with one row per page in page order, each at that page's address, with at most the canonical HOMEPAGE row in front (only when no page row is a homepage); all are in the URL table and only URL rows change |
| IngestionWorker.TaskSet | src/services/ingestion.js:404-409 | the tasks are SCREENSHOT, COLORS and TECHNOLOGIES, plus SECTIONS exactly for a HOMEPAGE URL, each once |
| IngestionWorker.ColorsOutcome | src/services/ingestion.js:462-499 | COLORS succeeds exactly when the screenshot, the extraction and the colour write all do; a failed screenshot always fails it, with the screenshot's error when that one settles first |
| IngestionWorker.TechnologiesOutcome | src/services/ingestion.js:563-650 | in HOMEPAGE scope a failed discovery detection fails TECHNOLOGIES with that error; otherwise it settles as the detection or the writes did |
| IngestionWorker.SectionsOutcome | src/services/ingestion.js:501-561 | SECTIONS always fails; after a successful screenshotter call it fails because the crawl service has no `setSections` |
| IngestionWorker.Settle | src/services/ingestion.js:652-656 | a SECTIONS outcome exists exactly for a HOMEPAGE URL, and it is a failure |
| IngestionWorker.ErrorEntries | src/services/ingestion.js:658-703 | no entry exactly when every sub-task fulfilled; a failed screenshot's entry comes first as `screenshot: ` and its message or `failed` |
| IngestionWorker.CrawlError | src/services/ingestion.js:711 | no error text exactly when nothing failed; otherwise the entries joined by `; ` |
| IngestionWorker.FinalStatus | src/services/ingestion.js:705 | SUCCESS exactly when the screenshot fulfilled, FAILED exactly when it failed |
| IngestionWorker.OnlyScreenshotDecidesStatus | src/services/ingestion.js:705 | the other sub-tasks never change the crawl's status |
| IngestionWorker.HomepageCrawlAlwaysHasError | src/services/ingestion.js:696-711 | a HOMEPAGE URL's crawl always carries an error text, since SECTIONS always fails |
| IngestionWorker.ClosingPatch | src/services/ingestion.js:456-703 | a fulfilled sub-task is patched SUCCESS with the error untouched; a failed one FAILED with its message or the default text of its type |
| IngestionWorker.FinishedTaskFacts | src/services/ingestion.js:421-703 | a sub-task run once has one attempt, a start and a finish, and the status and error of its outcome |
| IngestionWorker.FinishedCrawl | src/services/ingestion.js:410-712 | the finished crawl is of the URL, without run, with the final status and error text, the URL's normalised address and all times stamped |
| IngestionWorker.CloseTaskTouchesOneRow | src/services/crawls.js:69-88 | closing a sub-task rewrites that one task row only |
| IngestionWorker.ClosedTasksFinishEach | src/services/ingestion.js:420-703 | the crawl's SCREENSHOT, COLORS, TECHNOLOGIES and (for a homepage) SECTIONS rows are each finished by their own outcome; rows of other crawls are unchanged |
| IngestionWorker.NewCrawlRows | src/services/ingestion.js:404-703 | a crawl's task rows are exactly its task set, each finished by its outcome, and earlier rows are unchanged |
| IngestionWorker.NewCrawlTasksFinished | src/services/ingestion.js:404-703 | every task of the crawl's set ends closed once with its own outcome |
| IngestionWorker.RunTask | src/services/ingestion.js:421-458 | one sub-task's row is closed by its outcome and nothing else changes |
| IngestionWorker.RunTasks | src/services/ingestion.js:420-703 | the crawl's sub-task rows are closed by their outcomes and nothing else changes |
| IngestionWorker.RunCrawl | src/services/ingestion.js:415-712 | the crawl is patched RUNNING and then closed with status, error and times; its task rows are closed; nothing else changes |
| IngestionWorker.CrawlUrl | src/services/ingestion.js:403-715 | an unknown URL fails with 404 and writes nothing; otherwise the new crawl is stored finished with the URL's task set closed, and the worker reports its URL, crawl id and final status |
| Ingestion.CrawledStep | src/services/ingestion.js:403-715 | one more crawled URL under a fresh id keeps every earlier crawl and report |
| Ingestion.NewCrawlClosed | src/services/ingestion.js:409-712 | once its worker is done, a new crawl holds exactly the task rows of its URL's type, each tried once and closed by its own outcome |
| Ingestion.NewCrawlKeys | src/services/ingestion.js:409-712 | a new crawl's task rows are added under its id only, and every other row is kept |
| Ingestion.CrawlTasksClosedKept | src/services/ingestion.js:409-712 | adding another crawl's rows leaves a crawl's closed task rows as they were |
| Ingestion.TasksCrawledStep | src/services/ingestion.js:403-715 | one more crawl under a fresh id keeps the task table's bookkeeping: old rows kept, new rows reported, each crawl's rows closed by its outcomes |
| Ingestion.CrawledIsReported | src/services/ingestion.js:714-721 | crawling every listed URL reports each crawl as stored: its URL, its id, its status, finished now, SUCCESS exactly when its screenshot was taken |
| Ingestion.CrawlUrls | src/services/ingestion.js:403-715 | the i-th report is the i-th URL's, whose crawl is stored finished under the i-th new id and holds exactly the task rows of its URL's type, each closed once by its own outcome; earlier task rows are unchanged, new ones belong to reported crawls; only crawls and tasks change |
| Ingestion.FoundPages | src/services/ingestion.js:322-336 | a rejected pages finder is rethrown; otherwise its normalised pages are selected |
| Ingestion.IngestDomain | src/services/ingestion.js:255-722 | an unknown domain fails with 404 and an unparsable or rejected discovery rethrows, both before any write; otherwise one report per listed URL, the selected pages in order after at most the homepage, each naming a stored URL and its finished crawl at that page's address, with the status its own outcome settles (SUCCESS exactly when its screenshot was taken) and exactly the task rows of the page's type, each closed once by its own outcome; earlier task rows are unchanged and every new one belongs to a reported crawl; domains are untouched |
| Ingestion.PreparedIsCrawled | src/services/ingestion.js:342-408 | crawling the prepared rows gives each page its own report, in page order, at that page's address, with its own final status and the task rows of its guessed type |
| Ingestion.CrawlPrepared | src/services/ingestion.js:403-715 | crawling the prepared rows reports one result per row; each page and the front homepage get a stored crawl at their address, with their own final status and the closed task rows of their type; earlier task rows are kept and new ones belong to reported crawls; only crawls and tasks change |
| Ingestion.CrawledUrl | src/services/ingestion.js:403-715 | the i-th report of a crawled list is the i-th URL's crawl, at its address, with its status and its closed task rows |
| Ingestion.PreparedPageCrawled | src/services/ingestion.js:342-408 | the crawl of a row that fits its page is that page's crawl, typed and tasked by the page's label |
| MigrateSqlite.NonEmpty | scripts/migrate-sqlite.js:18 | keeps exactly the non-empty lines |
| MigrateSqlite.ColumnOf | scripts/migrate-sqlite.js:19-22 | a line names a column exactly when it has a pipe separator |
| MigrateSqlite.ParseTableInfo | scripts/migrate-sqlite.js:13-23 | one record per non-empty line of the trimmed output, in order, each named by the line's second field |
| MigrateSqlite.Columns | scripts/migrate-sqlite.js:19-22 | one record per line, in order |
| MigrateSqlite.NoOutputNoColumns | scripts/migrate-sqlite.js:15 | missing or blank output gives no records |
| MigrateSqlite.AddsCrawlRunIdColumn | scripts/migrate-sqlite.js:36-37 | the column is added exactly when no record is named `crawlRunId` |
| MigrateSqlite.SplitAtFirst | scripts/migrate-sqlite.js:20 | splitting at the first separator yields the text before it, then the split of the rest |
| MigrateSqlite.ListingLineNamesColumn | scripts/migrate-sqlite.js:14-21 | a `cid`, `name`, … line split on pipes is named by its second field |
| MigrateSqlite.ListedColumnNotAddedAgain | scripts/migrate-sqlite.js:79-81 | a listing that already has the `crawlRunId` column never adds it again |
| Publishing.TagOf | src/services/publishing.js:12-13 | a kept tag is trimmed and non-empty |
| Publishing.NormalizeTags | src/services/publishing.js:9-16 | null exactly for a non-array; otherwise the first 50 (at most) of the trimmed non-empty tags, in order, all of them when fewer than 50 |
| Publishing.Strs | src/services/publishing.js:288 | the tags as JSON strings, in order |
| Publishing.KeepTags | src/services/publishing.js:11-13 | a list of normalised tags keeps every one of them |
| Publishing.NormalizeTagsIdempotent | src/services/publishing.js:9-16 | normalising normalised tags gives them back |
| Publishing.Max | src/services/publishing.js:86-89 | the larger of the two times |
| Publishing.ReviewRulesAgree | src/services/publishing.js:80-93 | for times not before 1970, the filter of `getReviewCount` and the inline rule of `listDomainsToReview` agree; a domain needs review exactly when its latest run has a time and it has no baseline or is newer than both the review and the publication |
| Publishing.ReviewRulesDifferBeforeEpoch | src/services/publishing.js:143-149 | with a latest time of 0 and baselines before 1970, the inline rule includes the domain while the count's rule excludes it |
| Publishing.ByDomain | src/services/publishing.js:77-78 | the run looked up for a domain is the last of the rows of that domain, as the Map keeps it, or none when there is none |
| Publishing.ReviewCount | src/services/publishing.js:80-95 | the count never exceeds the number of domains with a successful run |
| Publishing.CandidateOf | src/services/publishing.js:140-150 | a candidate carries its domain, its latest run and that run's time |
| Publishing.ReviewCountIsQueueLength | src/services/publishing.js:80-150 | with no time before 1970, the review count equals the number of review candidates |
| Publishing.PrefixIsTop | src/services/publishing.js:152-153 | the first n of a list sorted newest first are not older than any candidate left out |
| Publishing.Cut | src/services/publishing.js:153 | the cut keeps n candidates, or all when fewer |
| Publishing.SortKeeps | src/services/publishing.js:152 | the sort keeps every candidate and adds none |
| Publishing.PrefixFacts | src/services/publishing.js:152-153 | a prefix of the sorted list is sorted, a sub-multiset, and not older than what is left out |
| Publishing.CutIsTop | src/services/publishing.js:139-153 | the cut sorted list is newest first, drawn from the candidates, of the right length, and no candidate left out is newer than any kept one |
| Publishing.ReviewQueue | src/services/publishing.js:98-153 | the queue holds the `take` most recent candidates (take clamped to [1, 200], 50 by default), newest first |
| Publishing.ItemOf | src/services/publishing.js:216-219 | a candidate yields an item exactly when its domain exists |
| Publishing.ListDomainsToReview | src/services/publishing.js:98-246 | one item per queued candidate whose domain exists, in queue order and none for a missing domain, with the domain, its count of successful runs and its latest run |
| Publishing.PresentAt | src/services/publishing.js:216-245 | the increasing positions of exactly the queue entries whose domain exists |
| Publishing.Flag | src/services/publishing.js:252-256 | a flag is set exactly when the input is a boolean, and it is that boolean |
| Publishing.IdOf | src/services/publishing.js:261 | a kept id is non-empty |
| Publishing.IdList | src/services/publishing.js:260-272 | a non-array gives no ids; every id kept is non-empty |
| Publishing.ReadInput | src/services/publishing.js:252-274 | marks reviewed unless `markReviewed` is exactly false; the publication flags only from booleans; the tags normalised |
| Publishing.PublishedRun | src/services/publishing.js:281-295 | only publication, tags and review fields change: publish stamps `publishedAt`, unpublish clears it; tags are stored when given; a review stamps REVIEWED with its time; otherwise each field is kept |
| Publishing.FlagCrawls | src/services/publishing.js:297-313 | only the listed crawls of this run change, and only their flag |
| Publishing.FlagShots | src/services/publishing.js:303-318 | only screenshots of the listed crawls change, and only their flag, whatever run they belong to |
| Publishing.FlagSectionsOfCrawls | src/services/publishing.js:320-323 | every section of the listed crawls is unpublished, whatever run they belong to |
| Publishing.FlagSections | src/services/publishing.js:326-338 | only the listed sections whose crawl is in this run change, and only their flag |
| Publishing.CrawlFlagAfterSave | src/services/publishing.js:297-313 | after the save a crawl of this run listed for unpublishing is unpublished even if also listed for publishing; crawls of other runs are unchanged |
| Publishing.ShotFlagAfterSave | src/services/publishing.js:297-318 | a screenshot follows its crawl's lists, unpublishing winning |
| Publishing.SectionFlagAfterSave | src/services/publishing.js:297-338 | a section of this run follows its own lists, unpublishing winning; otherwise it is unpublished when its crawl is listed for unpublishing, and never published through its crawl |
| Publishing.WriteDomainFlag | src/services/publishing.js:277-279 | the domain takes the flag when one is given; nothing else changes |
| Publishing.FlagCrawlsKeeps | src/services/publishing.js:297-313 | flagging crawls keeps the crawl and task tables keyed |
| Publishing.WriteCrawlFlags | src/services/publishing.js:297-313 | the crawl table is flagged as the lists say and nothing else changes |
| Publishing.WriteShotFlags | src/services/publishing.js:303-318 | the screenshot table is flagged as the lists say and nothing else changes |
| Publishing.UnpublishSectionsOfCrawls | src/services/publishing.js:320-323 | the listed crawls' sections are unpublished and nothing else changes |
| Publishing.WriteSectionFlags | src/services/publishing.js:326-338 | the section table is flagged as the lists say and nothing else changes |
| Publishing.SaveCrawlRunPublication | src/services/publishing.js:248-343 | an unknown run fails with 404 and a null input throws, both writing nothing; a domain flag for a missing domain fails with P2025 and writes nothing; otherwise the whole publication is applied at once and the run is returned as stored |
| Response.ParseCode | src/plugins/response.js:16-55 | a Prisma code read from text gives that text back |
| Response.KnownErrorReply | src/plugins/response.js:16-55 | a reply exactly for P2002, P2003, P2021, P2022 and P2025: 409 CONFLICT, 500 DATABASE_SCHEMA_OUTDATED and 404 NOT_FOUND as the table says |
| Response.ToPublicError | src/plugins/response.js:4-74 | a validation error is 400 VALIDATION_ERROR before anything else; a mapped Prisma code follows the table; an error with status and message passes through, its code defaulting to HTTP_ERROR; anything else is 500 INTERNAL_SERVER_ERROR `Unexpected error` |
| Response.UnmappedCodeFallsThrough | src/plugins/response.js:56-58 | an unmapped Prisma code is handled as if it were not a Prisma error |
| Response.ServiceFailureStatus | src/plugins/response.js:4-74 | a service's 404 and 400 pass through with their message; P2025 is 404 NOT_FOUND; P2002 is 409; anything thrown is 500 |
| Response.PayloadValue | src/plugins/response.js:87 | the payload object has its code, message and details |
| Response.OkReply | src/plugins/response.js:77-79 | `reply.ok` sends `ok: true` with data and meta and keeps the status |
| Response.FailReply | src/plugins/response.js:81-83 | `reply.fail` sends `ok: false` with the error, status 400 by default |
| Response.HandleError | src/plugins/response.js:85-88 | the error handler sends `ok: false` with the mapped status and payload |
| Storage.StaticPrefix | src/plugins/storage.js:14 | the prefix ends with `/`, added only when missing |
| Storage.StaticPrefixIdempotent | src/plugins/storage.js:14 | building the prefix of a prefix changes nothing |
| Storage.StripTrailingSlash | src/plugins/storage.js:21 | one trailing `/` is dropped, if any |
| Storage.CollapseDoubleSlashes | src/plugins/storage.js:21 | replacing `//` by `/` never lengthens the text |
| Storage.CollapseWithoutDoubleSlash | src/plugins/storage.js:21 | text without `//` is unchanged |
| Storage.CollapseFront | src/plugins/storage.js:21 | the first step turns a leading `//` into `/` and keeps any other first character |
| Storage.CollapseSplit | src/plugins/storage.js:21 | matches go left to right and do not overlap: a `//` whose left part does not end in `/` becomes one `/` and each side is collapsed on its own |
| Storage.TrailingSlashIrrelevant | src/plugins/storage.js:21 | a trailing `/` on the public path does not change the URL |
| Storage.PlainJoin | src/plugins/storage.js:21 | without `//` in either part and a key not starting with `/`, the URL is the stripped path, `/`, and the key |
| Lists.FirstBest | src/services/domains.js:211-212 | the index picked by a stable sort on a score, descending, followed by `[0]`: a maximum, and the first one |
| Lists.FirstWhere | src/services/feed.js:31-34 | the first position satisfying the test, none exactly when no position does |
| Lists.KeepSome | src/services/publishing.js:11-13 | mapping then `filter(Boolean)` never lengthens a list |
| Lists.KeepSomeMembers | src/services/publishing.js:11-13 | a value is kept exactly when some entry maps to it |
| Lists.KeepSomeAt | src/services/publishing.js:11-13 | the kept values are the values of the entries that map to one, in entry order, one per entry |
| Lists.SublistMembers | src/services/urls.js:48-52 | a filtered list is no longer than its list and holds nothing else |

## Left out

- Database reads with `orderBy`, `distinct` or `take` are not computed. Each one is an input sequence already in the query's order, and the model states what the code does with it.
- Prisma's `contains` is taken as a case-sensitive substring test.
- `JSON.stringify` is a function parameter (`Stringify`). `Date`, `Date.parse` and `toISOString` become integer times, with one `now` per operation. `new URL` is a parser parameter (`UrlParser`).
- `path.posix.join` of storage keys is plain concatenation with `/`. File writes (`mkdir`, `writeFile`) and `toAbsolutePath` are not modelled.
- The `code` property that http-errors adds to 4xx/5xx errors is not modelled. A service failure reaches `Response` with a message and a status only.
- Concurrency is sequential here. `Limiter.Pool` takes completions and failures in any order, but `Ingestion.CrawlUrls` runs the URL workers one after the other. Inside a worker, the sub-tasks' interleaving enters only through `Effects.screenshotFirst`, which says which failure `Promise.all` sees first.
- The job runner's `signal` (never aborted) and the progress `update` calls from ingestion are not modelled. Neither changes a stored row.
- `listDomainsToReview` leaves out each item's `latestPendingOverview` (the homepage crawl picked by a floating-point score), its profile and its screenshot. These are the reads at `src/services/publishing.js:160-214` and the overview fields at 234-242.
- Domains.ListDomains: the included crawl's tasks are listed in task-type order and its category links in stored order. The row order the database gives these two includes is not modelled.
- Feed.HomepageOf: the homepage part's `url` and `latestCrawl` are the bare URL and crawl rows. The crawl list, tasks, newest screenshot and category links the query includes with them are not carried; the in-place confidence sort of those links shows only in the chosen `category`.
- Publishing.ReviewQueue: the order of candidates with the same latest time is not promised. JavaScript's stable sort keeps them in the order the latest-run query lists them.
- `Jobs.SortNewestFirst`: the comparator in `list` never returns 0, so the order of jobs created at the same instant is engine-defined. The model fixes one order and states only newest-first and the permutation.
- In HOMEPAGE scope the technology rows are upserted once in `sharedTechnologyIdsBySlug`, and each crawl's technology links are written. The model keeps only whether the TECHNOLOGIES sub-task succeeds. It also leaves out what the sub-tasks write besides their task rows: screenshot rows and files, the prominent colour, section files, and technology links.
- `IngestionWorker.TechnologiesOutcome`: in PER_URL scope the homepage reuses the discovery technologies instead of a new detection. The model still takes that sub-task's outcome from `effects`, the answers given for that worker.
- A failing task patch, or a `createCrawl` error inside a worker, rejects `runWithLimit`. The model only covers a URL that has disappeared (`IngestionWorker.CrawlUrl` fails with 404), and `Ingestion.CrawlUrls` requires every listed URL to exist, which `PrepareUrls` guarantees.
- `normalizeUrlForDomainHost`, which `src/services/urls.js` imports, is not exported by `src/lib/normalize.js`. It is a parameter (`Urls.HostNormalizer`) that may refuse an address.
- The answers of the pages finder, the technologies finder, the screenshotter, the colours extractor and the icon download are parameters. The options passed to them (timeouts, formats, `maxDepth`) are not modelled.
- Floating point: `clampConfidence` and the limits use `real`, and `Math.round` is rounding half up on reals. JavaScript doubles and their rounding are not modelled. `Number()` of a string accepts signed decimal literals and `Infinity` only: exponents and the `0x`, `0o` and `0b` prefixes are not modelled and read as NaN.
- `Text.ToLower` and `Text.Trim` cover ASCII letters and the common JavaScript white-space characters. Full Unicode case mapping is left out.
- `crawls.getCrawl`, `getCrawlById`, `addScreenshot`, the `list*` readers of the crawl service, `crawl-runs.getCrawlRun`, the routes, the GraphQL layer and the seed and reset scripts are outside the modelled core.
- `Pagination.EncodeCursor` and `Pagination.DecodeCursor` do not model base64url (section 5 of RFC 4648) or JSON text. An issued cursor is a value that keeps what it encodes, and any other text is one `Corrupt` case on which `JSON.parse` throws.
