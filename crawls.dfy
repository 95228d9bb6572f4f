/**
 * The crawl service (`src/services/crawls.js`): creating a URL crawl with
 * its tasks, patching a crawl or one task, and replacing a crawl's category
 * and technology associations.
 */
module Crawls {
  import opened Wrappers
  import opened Store

  const RecordNotFound := PrismaKnown("P2025", "Record to update not found.")

  // -------------------------------------------------------------- create

  /** A freshly created task row: PENDING, no attempt yet. */
  function NewTask(crawlId: Id, t: TaskType): CrawlTask {
    CrawlTask(crawlId, t, PENDING, 0, None, None, None, None)
  }

  predicate Distinct<T(==)>(s: seq<T>) {
    forall i :: 0 <= i < |s| ==> s[i] !in s[..i]
  }

  /** The crawl-task rows of a new crawl: one per listed type. */
  function TaskRows(crawlId: Id, types: seq<TaskType>): (rows: map<(Id, TaskType), CrawlTask>)
    ensures forall k :: k in rows <==> k.0 == crawlId && k.1 in types
    ensures forall k :: k in rows ==> rows[k] == NewTask(crawlId, k.1)
  {
    map t | t in types :: (crawlId, t) := NewTask(crawlId, t)
  }

  /**
   * `createCrawl`: a PENDING crawl of the URL with one PENDING task per
   * listed type. The crawl run the caller names is not stored. A type
   * listed twice breaks the unique (crawl, type) key and nothing is written.
   */
  method CreateCrawl(db: Db, urlId: Id, taskTypes: seq<TaskType>, crawlRunId: Option<Id>, newId: Id, now: Time)
    returns (r: Result<UrlCrawl>)
    requires db.Valid() && newId !in db.crawls
    modifies db
    ensures db.Valid()
    ensures urlId !in old(db.urls) ==> r == Err(NotFound("URL not found"))
    ensures urlId in old(db.urls) && !Distinct(taskTypes) ==> r.Err? && r.error.PrismaKnown? && r.error.code == "P2002"
    ensures r.Err? ==> db.Snapshot() == old(db.Snapshot())
    ensures urlId in old(db.urls) && Distinct(taskTypes) ==> r.Ok?
    ensures r.Ok? ==>
      && r.value == UrlCrawl(newId, urlId, None, PENDING, None, None, None, None, None, None, None, None, None, None, false, now)
      && r.value.crawlRunId.None?
      && db.Snapshot() == old(db.Snapshot()).(crawls := old(db.crawls)[newId := r.value],
                                                tasks := old(db.tasks) + TaskRows(newId, taskTypes))
  {
    if urlId !in db.urls {
      return Err(NotFound("URL not found"));
    }
    if !Distinct(taskTypes) {
      return Err(PrismaKnown("P2002", "Unique constraint failed on the fields: (`crawlId`,`type`)"));
    }
    var crawl := UrlCrawl(newId, urlId, None, PENDING, None, None, None, None, None, None, None, None, None, None, false, now);
    InsertCrawl(db, crawl, taskTypes);
    r := Ok(crawl);
  }

  /** The nested `urlCrawl.create`: the crawl row and its task rows are written together. */
  method InsertCrawl(db: Db, crawl: UrlCrawl, taskTypes: seq<TaskType>)
    requires db.Valid() && crawl.id !in db.crawls
    modifies db
    ensures db.Valid()
    ensures db.Snapshot() == old(db.Snapshot()).(crawls := old(db.crawls)[crawl.id := crawl],
                                                 tasks := old(db.tasks) + TaskRows(crawl.id, taskTypes))
  {
    AddCrawlKeeps(db.crawls, db.tasks, crawl, taskTypes);
    db.crawls := db.crawls[crawl.id := crawl];
    db.tasks := db.tasks + TaskRows(crawl.id, taskTypes);
  }

  /**
   * Adding a crawl under a fresh id with its task rows keeps both tables
   * keyed; the new crawl has exactly the listed task types and no other
   * crawl's tasks change.
   */
  lemma AddCrawlKeeps(crawls: map<Id, UrlCrawl>, tasks: map<(Id, TaskType), CrawlTask>, crawl: UrlCrawl, types: seq<TaskType>)
    requires CrawlsKeyed(crawls) && TasksKeyed(tasks, crawls) && crawl.id !in crawls
    ensures CrawlsKeyed(crawls[crawl.id := crawl])
    ensures TasksKeyed(tasks + TaskRows(crawl.id, types), crawls[crawl.id := crawl])
    ensures forall t :: (crawl.id, t) in tasks + TaskRows(crawl.id, types) <==> t in types
    ensures forall k :: k in tasks ==> (tasks + TaskRows(crawl.id, types))[k] == tasks[k]
  {
  }

  // -------------------------------------------------------- associations

  /** The association rows the transaction's loop creates: one per item, in item order. */
  function Associations<T>(items: seq<T>, link: T -> Association): (a: seq<Association>)
    ensures |a| == |items|
    ensures forall i :: 0 <= i < |a| ==> a[i] == link(items[i])
  {
    seq(|items|, i requires 0 <= i < |items| => link(items[i]))
  }

  // --------------------------------------------------------------- patch

  /**
   * A crawl patch, one entry per column the route accepts; `None` leaves the
   * column as it is (an absent or falsy date is not written, any other given
   * value is, as the spread writes it).
   */
  datatype CrawlPatch = CrawlPatch(
    status: Option<Status>, startedAt: Option<Time>, finishedAt: Option<Time>,
    crawledAt: Option<Time>, httpStatus: Option<int>, finalUrl: Option<string>,
    title: Option<string>, metaDescription: Option<string>, language: Option<string>,
    contentHash: Option<string>, error: Option<string>)

  function Pick<T>(given: Option<T>, current: T): T {
    if given.Some? then given.value else current
  }

  function PickOpt<T>(given: Option<T>, current: Option<T>): Option<T> {
    if given.Some? then given else current
  }

  /** The row `patchCrawl` writes. */
  function ApplyCrawlPatch(c: UrlCrawl, p: CrawlPatch): (d: UrlCrawl)
    ensures d.id == c.id && d.urlId == c.urlId && d.crawlRunId == c.crawlRunId && d.createdAt == c.createdAt
  {
    c.(status := Pick(p.status, c.status),
       startedAt := PickOpt(p.startedAt, c.startedAt),
       finishedAt := PickOpt(p.finishedAt, c.finishedAt),
       crawledAt := PickOpt(p.crawledAt, c.crawledAt),
       httpStatus := PickOpt(p.httpStatus, c.httpStatus),
       finalUrl := PickOpt(p.finalUrl, c.finalUrl),
       title := PickOpt(p.title, c.title),
       metaDescription := PickOpt(p.metaDescription, c.metaDescription),
       language := PickOpt(p.language, c.language),
       contentHash := PickOpt(p.contentHash, c.contentHash),
       error := PickOpt(p.error, c.error))
  }

  const EmptyCrawlPatch := CrawlPatch(None, None, None, None, None, None, None, None, None, None, None)

  /** `{ ...p, ...q }` for patches: the later value wins column by column. */
  function MergeCrawlPatches(p: CrawlPatch, q: CrawlPatch): CrawlPatch {
    CrawlPatch(PickOpt(q.status, p.status), PickOpt(q.startedAt, p.startedAt), PickOpt(q.finishedAt, p.finishedAt),
               PickOpt(q.crawledAt, p.crawledAt), PickOpt(q.httpStatus, p.httpStatus), PickOpt(q.finalUrl, p.finalUrl),
               PickOpt(q.title, p.title), PickOpt(q.metaDescription, p.metaDescription),
               PickOpt(q.language, p.language), PickOpt(q.contentHash, p.contentHash), PickOpt(q.error, p.error))
  }

  /** An empty patch changes nothing, and two patches in a row act as their merge. */
  lemma CrawlPatchesCompose(c: UrlCrawl, p: CrawlPatch, q: CrawlPatch)
    ensures ApplyCrawlPatch(c, EmptyCrawlPatch) == c
    ensures ApplyCrawlPatch(ApplyCrawlPatch(c, p), q) == ApplyCrawlPatch(c, MergeCrawlPatches(p, q))
  {
  }

  /** `patchCrawl`: a missing crawl is the database's "record not found". */
  method PatchCrawl(db: Db, crawlId: Id, p: CrawlPatch) returns (r: Result<UrlCrawl>)
    requires db.Valid()
    modifies db
    ensures db.Valid()
    ensures crawlId !in old(db.crawls) ==> r == Err(RecordNotFound) && db.Snapshot() == old(db.Snapshot())
    ensures crawlId in old(db.crawls) ==>
      && r == Ok(ApplyCrawlPatch(old(db.crawls)[crawlId], p))
      && db.crawls == old(db.crawls)[crawlId := r.value]
      && db.Snapshot() == old(db.Snapshot()).(crawls := old(db.crawls)[crawlId := r.value])
  {
    if crawlId !in db.crawls {
      return Err(RecordNotFound);
    }
    var updated := ApplyCrawlPatch(db.crawls[crawlId], p);
    db.crawls := db.crawls[crawlId := updated];
    r := Ok(updated);
  }

  /** A task patch: `error` is `None` when undefined and `Some(None)` when explicitly null. */
  datatype TaskPatch = TaskPatch(status: Option<Status>, error: Option<Option<string>>)

  /** The row `patchTask` writes at instant `now`. */
  function ApplyTaskPatch(t: CrawlTask, p: TaskPatch, now: Time): (u: CrawlTask)
    ensures u.crawlId == t.crawlId && u.taskType == t.taskType
    ensures u.status == Pick(p.status, t.status)
    ensures u.error == (if p.error.Some? then p.error.value else t.error)
    ensures p.status == Some(RUNNING) ==>
      u.attempts == t.attempts + 1 && u.startedAt == u.lastAttemptAt == Some(now) && u.finishedAt == t.finishedAt
    ensures p.status == Some(SUCCESS) || p.status == Some(FAILED) ==>
      u.attempts == t.attempts && u.finishedAt == Some(now)
      && u.startedAt == t.startedAt && u.lastAttemptAt == t.lastAttemptAt
    ensures p.status.None? || p.status == Some(PENDING) ==>
      u.attempts == t.attempts && u.startedAt == t.startedAt
      && u.lastAttemptAt == t.lastAttemptAt && u.finishedAt == t.finishedAt
  {
    var withStatus := t.(status := Pick(p.status, t.status),
                          error := if p.error.Some? then p.error.value else t.error);
    if p.status == Some(RUNNING) then
      withStatus.(startedAt := Some(now), lastAttemptAt := Some(now), attempts := t.attempts + 1)
    else if p.status == Some(SUCCESS) || p.status == Some(FAILED) then
      withStatus.(finishedAt := Some(now))
    else withStatus
  }

  function CountRunning(ps: seq<TaskPatch>): nat {
    if ps == [] then 0 else (if ps[0].status == Some(RUNNING) then 1 else 0) + CountRunning(ps[1..])
  }

  /** Patches applied one after another, each at its own instant. */
  function ApplyTaskPatches(t: CrawlTask, ps: seq<TaskPatch>, times: seq<Time>): CrawlTask
    requires |ps| == |times|
    decreases |ps|
  {
    if ps == [] then t else ApplyTaskPatches(ApplyTaskPatch(t, ps[0], times[0]), ps[1..], times[1..])
  }

  /** A task's attempt counter counts the patches that set it RUNNING. */
  lemma {:induction false} AttemptsCountRunning(t: CrawlTask, ps: seq<TaskPatch>, times: seq<Time>)
    requires |ps| == |times|
    ensures ApplyTaskPatches(t, ps, times).attempts == t.attempts + CountRunning(ps)
    decreases |ps|
  {
    if ps != [] {
      AttemptsCountRunning(ApplyTaskPatch(t, ps[0], times[0]), ps[1..], times[1..]);
    }
  }

  /** `patchTask`: addresses the one task with key (crawl, type); no other row changes. */
  method PatchTask(db: Db, crawlId: Id, taskType: TaskType, p: TaskPatch, now: Time) returns (r: Result<CrawlTask>)
    requires db.Valid()
    modifies db
    ensures db.Valid()
    ensures (crawlId, taskType) !in old(db.tasks) ==> r == Err(RecordNotFound) && db.Snapshot() == old(db.Snapshot())
    ensures (crawlId, taskType) in old(db.tasks) ==>
      && r == Ok(ApplyTaskPatch(old(db.tasks)[(crawlId, taskType)], p, now))
      && db.tasks == old(db.tasks)[(crawlId, taskType) := r.value]
      && db.Snapshot() == old(db.Snapshot()).(tasks := old(db.tasks)[(crawlId, taskType) := r.value])
  {
    if (crawlId, taskType) !in db.tasks {
      return Err(RecordNotFound);
    }
    var updated := ApplyTaskPatch(db.tasks[(crawlId, taskType)], p, now);
    db.tasks := db.tasks[(crawlId, taskType) := updated];
    r := Ok(updated);
  }

  // -------------------------------------------------------- associations

  datatype CategoryItem = CategoryItem(slug: string, name: string, description: Option<string>, confidence: Option<real>)
  datatype CategoryRow = CategoryRow(category: Category, confidence: Option<real>)

  /** `category.upsert` by slug: a new row, or the existing one with the new name (and description when given). */
  function UpsertCategory(cats: map<string, Category>, item: CategoryItem): (r: map<string, Category>)
    ensures r.Keys == cats.Keys + {item.slug}
    ensures r[item.slug].name == item.name && r[item.slug].slug == item.slug
    ensures forall s :: s in cats && s != item.slug ==> r[s] == cats[s]
  {
    var row := if item.slug in cats
      then cats[item.slug].(slug := item.slug, name := item.name, description := PickOpt(item.description, cats[item.slug].description))
      else Category(item.slug, item.name, item.description);
    cats[item.slug := row]
  }

  function UpsertCategories(cats: map<string, Category>, items: seq<CategoryItem>): map<string, Category>
    decreases |items|
  {
    if items == [] then cats else UpsertCategories(UpsertCategory(cats, items[0]), items[1..])
  }

  /** After the loop every listed slug exists and carries the name of its last occurrence; other rows are untouched. */
  lemma {:induction false} UpsertCategoriesLastWins(cats: map<string, Category>, items: seq<CategoryItem>, i: nat)
    requires i < |items|
    requires forall j :: i < j < |items| ==> items[j].slug != items[i].slug
    ensures items[i].slug in UpsertCategories(cats, items)
    ensures UpsertCategories(cats, items)[items[i].slug].name == items[i].name
    decreases |items|
  {
    if i == 0 {
      UpsertCategoriesKeeps(UpsertCategory(cats, items[0]), items[1..], items[0].slug);
    } else {
      UpsertCategoriesLastWins(UpsertCategory(cats, items[0]), items[1..], i - 1);
    }
  }

  lemma {:induction false} UpsertCategoriesKeeps(cats: map<string, Category>, items: seq<CategoryItem>, slug: string)
    requires forall j :: 0 <= j < |items| ==> items[j].slug != slug
    ensures slug in cats ==> slug in UpsertCategories(cats, items) && UpsertCategories(cats, items)[slug] == cats[slug]
    ensures slug !in cats ==> slug !in UpsertCategories(cats, items)
    decreases |items|
  {
    if items != [] {
      UpsertCategoriesKeeps(UpsertCategory(cats, items[0]), items[1..], slug);
    }
  }

  /** The link `crawlCategory.create` writes for an item. */
  function CategoryLink(item: CategoryItem): Association {
    Association(item.slug, item.confidence)
  }

  /** The transaction's loop: upsert each item in order and collect the row written for it. */
  method UpsertCategoryRows(table: map<string, Category>, items: seq<CategoryItem>) returns (t: map<string, Category>, rows: seq<CategoryRow>)
    requires CategoriesKeyed(table)
    ensures CategoriesKeyed(t)
    ensures t == UpsertCategories(table, items)
    ensures |rows| == |items|
    ensures forall i :: 0 <= i < |items| ==>
      rows[i].category.slug == items[i].slug && rows[i].category.name == items[i].name
      && rows[i].confidence == items[i].confidence
    ensures DistinctCategorySlugs(items) ==>
      forall i :: 0 <= i < |items| ==> items[i].slug in t && rows[i].category == t[items[i].slug]
  {
    t := table;
    rows := [];
    var i := 0;
    while i < |items|
      invariant 0 <= i <= |items| && |rows| == i
      invariant UpsertCategories(t, items[i..]) == UpsertCategories(table, items)
      invariant CategoriesKeyed(t)
      invariant forall j :: 0 <= j < i ==>
        rows[j].category.slug == items[j].slug && rows[j].category.name == items[j].name
        && rows[j].confidence == items[j].confidence
      invariant DistinctCategorySlugs(items) ==>
        forall j :: 0 <= j < i ==> items[j].slug in t && rows[j].category == t[items[j].slug]
    {
      assert items[i..][0] == items[i] && items[i..][1..] == items[i + 1..];
      t := UpsertCategory(t, items[i]);
      rows := rows + [CategoryRow(t[items[i].slug], items[i].confidence)];
      i := i + 1;
    }
    assert items[i..] == [];
  }

  /** No two items name the same slug: the (crawl, category) link is a unique key. */
  predicate DistinctCategorySlugs(items: seq<CategoryItem>) {
    forall i, j :: 0 <= j < i < |items| ==> items[j].slug != items[i].slug
  }

  const DuplicateCategoryLink := PrismaKnown("P2002", "Unique constraint failed on the fields: (`crawlId`,`categoryId`)")

  /**
   * `setCategories`: the crawl's associations become one row per item, in
   * item order, each upserting its category by slug; the rows returned carry
   * the category as it was written and the confidence (null by default).
   * Two items with one slug would create the same link twice: the second
   * create breaks the unique key and the transaction writes nothing.
   */
  method SetCategories(db: Db, crawlId: Id, items: seq<CategoryItem>) returns (r: Result<seq<CategoryRow>>)
    requires db.Valid()
    modifies db
    ensures db.Valid()
    ensures crawlId !in old(db.crawls) ==> r == Err(NotFound("Crawl not found")) && db.Snapshot() == old(db.Snapshot())
    ensures crawlId in old(db.crawls) && !DistinctCategorySlugs(items) ==>
      r == Err(DuplicateCategoryLink) && db.Snapshot() == old(db.Snapshot())
    ensures crawlId in old(db.crawls) && DistinctCategorySlugs(items) ==>
      && r.Ok? && |r.value| == |items|
      && (forall i :: 0 <= i < |items| ==>
            && r.value[i].category.slug == items[i].slug && r.value[i].category.name == items[i].name
            && r.value[i].confidence == items[i].confidence
            && items[i].slug in db.categories && r.value[i].category == db.categories[items[i].slug])
      && db.Snapshot() == old(db.Snapshot()).(
           categories := UpsertCategories(old(db.categories), items),
           crawlCategories := old(db.crawlCategories)[crawlId := Associations(items, CategoryLink)])
  {
    if crawlId !in db.crawls {
      return Err(NotFound("Crawl not found"));
    }
    if !DistinctCategorySlugs(items) {
      return Err(DuplicateCategoryLink);
    }
    var cats, rows := UpsertCategoryRows(db.categories, items);
    db.categories := cats;
    db.crawlCategories := db.crawlCategories[crawlId := Associations(items, CategoryLink)];
    r := Ok(rows);
  }

  datatype TechnologyItem = TechnologyItem(slug: string, name: string, websiteUrl: Option<string>, confidence: Option<real>)
  datatype TechnologyRow = TechnologyRow(technology: Technology, confidence: Option<real>)

  /** `technology.upsert` by slug: a new row, or the existing one with the new name (and address when given). */
  function UpsertTechnology(techs: map<string, Technology>, item: TechnologyItem): (r: map<string, Technology>)
    ensures r.Keys == techs.Keys + {item.slug}
    ensures r[item.slug].name == item.name && r[item.slug].slug == item.slug
    ensures forall s :: s in techs && s != item.slug ==> r[s] == techs[s]
  {
    var row := if item.slug in techs
      then techs[item.slug].(slug := item.slug, name := item.name, websiteUrl := PickOpt(item.websiteUrl, techs[item.slug].websiteUrl))
      else Technology(item.slug, item.name, item.websiteUrl, None, None, None);
    techs[item.slug := row]
  }

  function UpsertTechnologies(techs: map<string, Technology>, items: seq<TechnologyItem>): map<string, Technology>
    decreases |items|
  {
    if items == [] then techs else UpsertTechnologies(UpsertTechnology(techs, items[0]), items[1..])
  }

  /** After the loop every listed slug exists and carries the name of its last occurrence. */
  lemma {:induction false} UpsertTechnologiesLastWins(techs: map<string, Technology>, items: seq<TechnologyItem>, i: nat)
    requires i < |items|
    requires forall j :: i < j < |items| ==> items[j].slug != items[i].slug
    ensures items[i].slug in UpsertTechnologies(techs, items)
    ensures UpsertTechnologies(techs, items)[items[i].slug].name == items[i].name
    decreases |items|
  {
    if i == 0 {
      UpsertTechnologiesKeeps(UpsertTechnology(techs, items[0]), items[1..], items[0].slug);
    } else {
      UpsertTechnologiesLastWins(UpsertTechnology(techs, items[0]), items[1..], i - 1);
    }
  }

  lemma {:induction false} UpsertTechnologiesKeeps(techs: map<string, Technology>, items: seq<TechnologyItem>, slug: string)
    requires forall j :: 0 <= j < |items| ==> items[j].slug != slug
    ensures slug in techs ==> slug in UpsertTechnologies(techs, items) && UpsertTechnologies(techs, items)[slug] == techs[slug]
    ensures slug !in techs ==> slug !in UpsertTechnologies(techs, items)
    decreases |items|
  {
    if items != [] {
      UpsertTechnologiesKeeps(UpsertTechnology(techs, items[0]), items[1..], slug);
    }
  }

  /** The link `crawlTechnology.create` writes for an item. */
  function TechnologyLink(item: TechnologyItem): Association {
    Association(item.slug, item.confidence)
  }

  /** The transaction's loop: upsert each item in order and collect the row written for it. */
  method UpsertTechnologyRows(table: map<string, Technology>, items: seq<TechnologyItem>) returns (t: map<string, Technology>, rows: seq<TechnologyRow>)
    requires TechnologiesKeyed(table)
    ensures TechnologiesKeyed(t)
    ensures t == UpsertTechnologies(table, items)
    ensures |rows| == |items|
    ensures forall i :: 0 <= i < |items| ==>
      rows[i].technology.slug == items[i].slug && rows[i].technology.name == items[i].name
      && rows[i].confidence == items[i].confidence
    ensures DistinctTechnologySlugs(items) ==>
      forall i :: 0 <= i < |items| ==> items[i].slug in t && rows[i].technology == t[items[i].slug]
  {
    t := table;
    rows := [];
    var i := 0;
    while i < |items|
      invariant 0 <= i <= |items| && |rows| == i
      invariant UpsertTechnologies(t, items[i..]) == UpsertTechnologies(table, items)
      invariant TechnologiesKeyed(t)
      invariant forall j :: 0 <= j < i ==>
        rows[j].technology.slug == items[j].slug && rows[j].technology.name == items[j].name
        && rows[j].confidence == items[j].confidence
      invariant DistinctTechnologySlugs(items) ==>
        forall j :: 0 <= j < i ==> items[j].slug in t && rows[j].technology == t[items[j].slug]
    {
      assert items[i..][0] == items[i] && items[i..][1..] == items[i + 1..];
      t := UpsertTechnology(t, items[i]);
      rows := rows + [TechnologyRow(t[items[i].slug], items[i].confidence)];
      i := i + 1;
    }
    assert items[i..] == [];
  }

  /** No two items name the same slug: the (crawl, technology) link is a unique key. */
  predicate DistinctTechnologySlugs(items: seq<TechnologyItem>) {
    forall i, j :: 0 <= j < i < |items| ==> items[j].slug != items[i].slug
  }

  const DuplicateTechnologyLink := PrismaKnown("P2002", "Unique constraint failed on the fields: (`crawlId`,`technologyId`)")

  /**
   * `setTechnologies`: the same replacement as `setCategories`, over
   * technologies, refused in the same way when two items share a slug.
   */
  method SetTechnologies(db: Db, crawlId: Id, items: seq<TechnologyItem>) returns (r: Result<seq<TechnologyRow>>)
    requires db.Valid()
    modifies db
    ensures db.Valid()
    ensures crawlId !in old(db.crawls) ==> r == Err(NotFound("Crawl not found")) && db.Snapshot() == old(db.Snapshot())
    ensures crawlId in old(db.crawls) && !DistinctTechnologySlugs(items) ==>
      r == Err(DuplicateTechnologyLink) && db.Snapshot() == old(db.Snapshot())
    ensures crawlId in old(db.crawls) && DistinctTechnologySlugs(items) ==>
      && r.Ok? && |r.value| == |items|
      && (forall i :: 0 <= i < |items| ==>
            && r.value[i].technology.slug == items[i].slug && r.value[i].technology.name == items[i].name
            && r.value[i].confidence == items[i].confidence
            && items[i].slug in db.technologies && r.value[i].technology == db.technologies[items[i].slug])
      && db.Snapshot() == old(db.Snapshot()).(
           technologies := UpsertTechnologies(old(db.technologies), items),
           crawlTechnologies := old(db.crawlTechnologies)[crawlId := Associations(items, TechnologyLink)])
  {
    if crawlId !in db.crawls {
      return Err(NotFound("Crawl not found"));
    }
    if !DistinctTechnologySlugs(items) {
      return Err(DuplicateTechnologyLink);
    }
    var techs, rows := UpsertTechnologyRows(db.technologies, items);
    db.technologies := techs;
    db.crawlTechnologies := db.crawlTechnologies[crawlId := Associations(items, TechnologyLink)];
    r := Ok(rows);
  }
}
