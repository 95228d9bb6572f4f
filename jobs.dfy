/**
 * The in-process job runner (`src/plugins/jobs.js`): a FIFO queue of
 * pending jobs, a registry of every job, and a counter of handlers in
 * flight kept under a concurrency ceiling. Handlers run outside the model:
 * their completion is an event (`Finish`) the environment delivers.
 */
module Jobs {
  import opened Wrappers
  import opened Js

  type Id = string
  type Time = int

  datatype JobStatus = QUEUED | RUNNING | SUCCEEDED | FAILED

  datatype Job = Job(
    id: Id, jobType: string, status: JobStatus, input: JsValue, progress: JsValue,
    createdAt: Time, startedAt: Option<Time>, finishedAt: Option<Time>,
    result: JsValue, error: JsValue)

  /** `{ stage: name }` */
  function StageProgress(name: string): JsValue {
    Obj(map["stage" := Str(name)])
  }

  /** `{ message: m }` */
  function ErrorObject(m: JsValue): JsValue {
    Obj(map["message" := m])
  }

  /** The record `enqueue` registers. */
  function NewJob(id: Id, jobType: string, input: JsValue, now: Time): (j: Job)
    ensures j.status == QUEUED && j.startedAt.None? && j.finishedAt.None?
    ensures j.result == Null && j.error == Null && j.progress == StageProgress("queued")
  {
    Job(id, jobType, QUEUED, input, StageProgress("queued"), now, None, None, Null, Null)
  }

  /** A shallow patch: a present field overwrites, an absent one is kept (`Object.assign`). */
  datatype JobPatch = JobPatch(
    status: Option<JobStatus>, progress: Option<JsValue>, startedAt: Option<Option<Time>>,
    finishedAt: Option<Option<Time>>, result: Option<JsValue>, error: Option<JsValue>)

  function Over<T>(given: Option<T>, current: T): T {
    if given.Some? then given.value else current
  }

  function Assign(j: Job, p: JobPatch): (k: Job)
    ensures k.id == j.id && k.jobType == j.jobType && k.input == j.input && k.createdAt == j.createdAt
  {
    j.(status := Over(p.status, j.status), progress := Over(p.progress, j.progress),
       startedAt := Over(p.startedAt, j.startedAt), finishedAt := Over(p.finishedAt, j.finishedAt),
       result := Over(p.result, j.result), error := Over(p.error, j.error))
  }

  /** How a handler's promise settled: its value, or `error?.message` of what it threw. */
  datatype HandlerOutcome = Returned(value: JsValue) | Threw(message: JsValue)

  /** The patch `#run` applies when the job starts. */
  function StartPatch(now: Time): JobPatch {
    JobPatch(Some(RUNNING), Some(StageProgress("running")), Some(Some(now)), None, None, None)
  }

  /** The patch `#run` applies when the handler settles; a rejection is recorded, never rethrown. */
  function SettlePatch(o: HandlerOutcome, now: Time): (p: JobPatch)
    ensures o.Returned? ==> p.status == Some(SUCCEEDED) && p.result == Some(o.value) && p.error.None?
    ensures o.Threw? ==>
      (p.status == Some(FAILED) && p.result.None?
       && p.error == Some(ErrorObject(if Truthy(o.message) then o.message else Str("Job failed"))))
    ensures p.finishedAt == Some(Some(now))
  {
    match o
    case Returned(v) => JobPatch(Some(SUCCEEDED), Some(StageProgress("done")), None, Some(Some(now)), Some(v), None)
    case Threw(m) => JobPatch(Some(FAILED), Some(StageProgress("failed")), None, Some(Some(now)), None, Some(ErrorObject(Or(m, Str("Job failed")))))
  }

  // ---------------------------------------------------------- ordering

  predicate Descending<T>(s: seq<T>, key: T -> int) {
    forall i, j :: 0 <= i < j < |s| ==> key(s[i]) >= key(s[j])
  }

  lemma DescendingCons<T>(a: T, s: seq<T>, key: T -> int)
    requires Descending(s, key)
    requires forall i :: 0 <= i < |s| ==> key(s[i]) <= key(a)
    ensures Descending([a] + s, key)
  {
    var r := [a] + s;
    forall i, j | 0 <= i < j < |r| ensures key(r[i]) >= key(r[j]) {
      assert r[j] == s[j - 1];
      if i > 0 {
        assert r[i] == s[i - 1];
      }
    }
  }

  function InsertDescending<T>(x: T, s: seq<T>, key: T -> int): (r: seq<T>)
    requires Descending(s, key)
    ensures Descending(r, key) && multiset(r) == multiset(s) + multiset{x}
    ensures forall y :: y in r ==> y == x || y in s
  {
    if s == [] || key(s[0]) <= key(x) then
      DescendingCons(x, s, key);
      [x] + s
    else
      var rest := InsertDescending(x, s[1..], key);
      assert s == [s[0]] + s[1..];
      assert forall i :: 0 <= i < |rest| ==> key(rest[i]) <= key(s[0]) by {
        forall i | 0 <= i < |rest| ensures key(rest[i]) <= key(s[0]) {
          assert rest[i] in rest;
        }
      }
      DescendingCons(s[0], rest, key);
      [s[0]] + rest
  }

  /** Insertion sort on a key, largest first. */
  function SortDescending<T>(s: seq<T>, key: T -> int): (r: seq<T>)
    ensures Descending(r, key) && multiset(r) == multiset(s)
  {
    if s == [] then []
    else
      assert s == [s[0]] + s[1..];
      InsertDescending(s[0], SortDescending(s[1..], key), key)
  }

  function CreatedAt(j: Job): Time { j.createdAt }

  predicate NewestFirst(s: seq<Job>) {
    Descending(s, CreatedAt)
  }

  /**
   * The array sorted with the comparator `a.createdAt < b.createdAt ? 1 : -1`:
   * newest first. The comparator does not order equal times consistently, so
   * the source fixes no order among them; this is one admissible order.
   */
  function SortNewestFirst(s: seq<Job>): (r: seq<Job>)
    ensures NewestFirst(r) && multiset(r) == multiset(s)
  {
    SortDescending(s, CreatedAt)
  }

  // ------------------------------------------------------------ runner

  /** The ids a sequence holds. */
  function Elems(s: seq<Id>): set<Id> {
    set id | id in s
  }

  predicate Distinct(s: seq<Id>) {
    forall i :: 0 <= i < |s| ==> s[i] !in s[..i]
  }

  /**
   * The runner's state as a value: the queue, the registry, the running
   * counter, how many jobs have started, and the places (in enqueue order)
   * of the jobs whose handlers are in flight.
   */
  datatype RunnerState = RunnerState(
    queue: seq<Id>, jobs: map<Id, Job>, running: nat, started: nat, inFlight: set<nat>)

  /** One turn of `#drain`'s loop: the head of the queue takes a slot and is marked RUNNING. */
  function StartNext(s: RunnerState, now: Time): RunnerState {
    if s.queue == [] then s
    else
      var id := s.queue[0];
      RunnerState(s.queue[1..],
                  if id in s.jobs then s.jobs[id := Assign(s.jobs[id], StartPatch(now))] else s.jobs,
                  s.running + 1, s.started + 1, s.inFlight + {s.started})
  }

  /** `k` turns of the loop. */
  function StartMany(s: RunnerState, k: nat, now: Time): RunnerState {
    if k == 0 then s else StartNext(StartMany(s, k - 1, now), now)
  }

  /**
   * The bookkeeping every state keeps: the registry holds exactly the jobs
   * of `order`; the queue is the suffix of `order` after the started jobs
   * (so jobs start in enqueue order); the running counter counts the
   * in-flight handlers, all of started jobs; and it never exceeds the
   * concurrency.
   */
  ghost predicate WellFormed(s: RunnerState, order: seq<Id>, concurrency: int) {
    && Distinct(order)
    && s.jobs.Keys == Elems(order)
    && s.started <= |order| && s.queue == order[s.started..]
    && (forall p :: p in s.inFlight ==> p < s.started)
    && s.running == |s.inFlight|
    && (s.running == 0 || s.running <= concurrency)
  }

  /** A job is still waiting (not yet started) exactly when its status is QUEUED. */
  ghost predicate QueuedIn(s: RunnerState, order: seq<Id>) {
    forall i :: 0 <= i < |order| && order[i] in s.jobs ==> (i >= s.started <==> s.jobs[order[i]].status == QUEUED)
  }

  /** Starting the head of the queue into a free slot keeps the bookkeeping and the QUEUED correspondence. */
  lemma StartNextKeeps(s: RunnerState, order: seq<Id>, concurrency: int, now: Time)
    requires WellFormed(s, order, concurrency) && s.running < concurrency
    ensures WellFormed(StartNext(s, now), order, concurrency)
    ensures QueuedIn(s, order) ==> QueuedIn(StartNext(s, now), order)
  {
    if s.queue != [] {
      var t := StartNext(s, now);
      assert order[s.started] == s.queue[0];
      assert s.started !in s.inFlight;
      if QueuedIn(s, order) {
        forall i | 0 <= i < |order| && order[i] in t.jobs ensures (i >= t.started <==> t.jobs[order[i]].status == QUEUED) {
          if i != s.started {
            assert order[i] != order[s.started];
          }
        }
      }
    }
  }

  /** `k` turns take the first `k` queued jobs, in queue order, each into its own slot. */
  lemma {:induction false} StartManyTakesFront(s: RunnerState, k: nat, now: Time)
    requires k <= |s.queue|
    ensures StartMany(s, k, now).queue == s.queue[k..]
    ensures StartMany(s, k, now).running == s.running + k
    ensures StartMany(s, k, now).started == s.started + k
  {
    if k > 0 {
      StartManyTakesFront(s, k - 1, now);
    }
  }

  /** `enqueue` before its drain: the job is registered and appended to the queue. */
  function Push(s: RunnerState, id: Id, job: Job): RunnerState {
    RunnerState(s.queue + [id], s.jobs[id := job], s.running, s.started, s.inFlight)
  }

  /** A handler settles: its job takes its final record and its slot (place `p`) is freed. */
  function Release(s: RunnerState, p: nat, id: Id, job: Job): RunnerState
    requires s.running > 0
  {
    RunnerState(s.queue, s.jobs[id := job], s.running - 1, s.started, s.inFlight - {p})
  }

  /** Registering a fresh QUEUED job keeps the bookkeeping, with the job last in enqueue order. */
  lemma PushKeeps(s: RunnerState, order: seq<Id>, concurrency: int, id: Id, job: Job)
    requires WellFormed(s, order, concurrency) && id !in s.jobs
    ensures WellFormed(Push(s, id, job), order + [id], concurrency)
    ensures QueuedIn(s, order) && job.status == QUEUED ==> QueuedIn(Push(s, id, job), order + [id])
  {
    var order' := order + [id];
    assert forall i :: 0 <= i < |order| ==> order'[i] == order[i];
    assert order'[s.started..] == order[s.started..] + [id];
  }

  /** Settling an in-flight job (into a non-QUEUED record) keeps the bookkeeping. */
  lemma ReleaseKeeps(s: RunnerState, order: seq<Id>, concurrency: int, p: nat, job: Job)
    requires WellFormed(s, order, concurrency) && p in s.inFlight && p < |order|
    ensures s.running > 0
    ensures WellFormed(Release(s, p, order[p], job), order, concurrency)
    ensures QueuedIn(s, order) && job.status != QUEUED ==> QueuedIn(Release(s, p, order[p], job), order)
  {
    var t := Release(s, p, order[p], job);
    if QueuedIn(s, order) && job.status != QUEUED {
      forall i | 0 <= i < |order| && order[i] in t.jobs ensures (i >= t.started <==> t.jobs[order[i]].status == QUEUED) {
        if i != p {
          assert order[i] != order[p];
        }
      }
    }
  }

  /**
   * `enqueue`'s drain after the push, once no slot is free while a job
   * waits: with every slot taken nothing starts; otherwise the queue was
   * empty and exactly the new job starts.
   */
  lemma PushThenDrain(s: RunnerState, concurrency: int, id: Id, job: Job, k: nat, now: Time)
    requires s.queue == [] || s.running >= concurrency
    requires k <= |s.queue| + 1
    requires var t := StartMany(Push(s, id, job), k, now);
      (t.running == 0 || t.running <= concurrency) && (t.queue == [] || t.running >= concurrency)
    ensures s.running >= concurrency ==> StartMany(Push(s, id, job), k, now) == Push(s, id, job)
    ensures s.running < concurrency ==>
      StartMany(Push(s, id, job), k, now)
        == RunnerState([], s.jobs[id := Assign(job, StartPatch(now))], s.running + 1, s.started + 1, s.inFlight + {s.started})
  {
    var u := Push(s, id, job);
    StartManyTakesFront(u, k, now);
    if s.running < concurrency {
      assert k != 0;
      assert StartMany(u, k, now) == StartNext(u, now);
    }
  }

  /**
   * A settle's drain: with an empty queue nothing starts; otherwise every
   * slot was taken, so exactly the head of the queue takes the freed slot.
   * The settled job keeps its record and is no longer in flight.
   */
  lemma ReleaseThenDrain(s: RunnerState, order: seq<Id>, concurrency: int, p: nat, job: Job, k: nat, now: Time)
    requires WellFormed(s, order, concurrency) && p in s.inFlight && p < |order|
    requires s.queue == [] || s.running >= concurrency
    requires s.running > 0 && k <= |s.queue|
    requires var t := StartMany(Release(s, p, order[p], job), k, now);
      (t.running == 0 || t.running <= concurrency) && (t.queue == [] || t.running >= concurrency)
    ensures var u := Release(s, p, order[p], job);
      StartMany(u, k, now) == if s.queue == [] then u else StartNext(u, now)
    ensures var t := StartMany(Release(s, p, order[p], job), k, now);
      order[p] in t.jobs && t.jobs[order[p]] == job && forall q :: q in t.inFlight && q < |order| ==> order[q] != order[p]
    ensures s.queue != [] ==> s.queue[0] != order[p]
    // the head of the queue, if any, is started; no other record changes
    ensures var t := StartMany(Release(s, p, order[p], job), k, now);
      && t.jobs.Keys == s.jobs.Keys
      && (s.queue != [] ==>
            && s.queue[0] in s.jobs
            && t.jobs[s.queue[0]] == Assign(s.jobs[s.queue[0]], StartPatch(now))
            && t.jobs[s.queue[0]].status == RUNNING && t.jobs[s.queue[0]].startedAt == Some(now))
      && forall j :: j in s.jobs && j != order[p] && (s.queue == [] || j != s.queue[0]) ==> t.jobs[j] == s.jobs[j]
  {
    var u := Release(s, p, order[p], job);
    StartManyTakesFront(u, k, now);
    if s.queue != [] {
      assert k == 1;
      assert StartMany(u, k, now) == StartNext(u, now);
      assert order[s.started] == s.queue[0];
      assert p < s.started;
    }
  }

  class JobRunner {
    /** `#queue`: ids of the jobs waiting for a slot, oldest first. */
    var queue: seq<Id>
    /** `#jobs`: the registry, with `order` its insertion (enqueue) order. */
    var jobs: map<Id, Job>
    var order: seq<Id>
    /** `#running`: handlers started and not yet settled. */
    var running: nat
    const concurrency: int
    /** How many jobs have started, and the places (in `order`) of those whose handlers are in flight. */
    ghost var started: nat
    ghost var inFlight: set<nat>

    ghost function Snapshot(): RunnerState
      reads this
    {
      RunnerState(queue, jobs, running, started, inFlight)
    }

    /** The bookkeeping every state keeps, also in the middle of `#drain`. */
    ghost predicate Inv()
      reads this
    {
      WellFormed(Snapshot(), order, concurrency)
    }

    /** Between events `#drain` has run to its end: no slot is free while a job waits. */
    ghost predicate Valid()
      reads this
    {
      Inv() && (queue == [] || running >= concurrency)
    }

    /** Assuming no handler patches `status`: a job is in the queue exactly when it is QUEUED. */
    ghost predicate QueuedMeansWaiting()
      reads this
    {
      QueuedIn(Snapshot(), order)
    }

    /** The handler of job `id` has been started and has not settled. */
    ghost predicate InFlight(id: Id)
      reads this
    {
      exists p :: p in inFlight && p < |order| && order[p] == id
    }

    constructor(concurrency: int)
      ensures Valid() && QueuedMeansWaiting()
      ensures this.concurrency == concurrency
      ensures jobs == map[] && queue == [] && running == 0
    {
      this.concurrency := concurrency;
      queue := [];
      jobs := map[];
      order := [];
      running := 0;
      started := 0;
      inFlight := {};
    }

    /** `get`: `None` plays `null`. */
    function Get(id: Id): (r: Option<Job>)
      reads this
      ensures r.Some? <==> id in jobs
      ensures r.Some? ==> r.value == jobs[id]
    {
      if id in jobs then Some(jobs[id]) else None
    }

    /** The registry's values in insertion order (`Array.from(map.values())`). */
    function Values(): (vs: seq<Job>)
      reads this
      requires Inv()
      ensures |vs| == |order|
      ensures forall i :: 0 <= i < |order| ==> vs[i] == jobs[order[i]]
    {
      seq(|order|, i requires 0 <= i < |order| && Inv() reads this => jobs[order[i]])
    }

    /** `list`: every job exactly once, newest first. */
    function List(): (r: seq<Job>)
      reads this
      requires Inv()
      ensures NewestFirst(r)
      ensures multiset(r) == multiset(Values())
      ensures forall id :: id in jobs ==> jobs[id] in r
    {
      var vs := Values();
      assert forall id :: id in jobs ==> jobs[id] in multiset(vs) by {
        forall id | id in jobs ensures jobs[id] in multiset(vs) {
          var i :| 0 <= i < |order| && order[i] == id;
          assert vs[i] == jobs[id];
        }
      }
      SortNewestFirst(vs)
    }

    /** `update`: an unknown id yields `None` and changes nothing; otherwise only that job is patched. */
    method Update(id: Id, p: JobPatch) returns (r: Option<Job>)
      requires Valid()
      modifies this
      ensures Valid()
      ensures id !in old(jobs) ==> r.None? && jobs == old(jobs)
      ensures id in old(jobs) ==> r == Some(Assign(old(jobs)[id], p)) && jobs == old(jobs)[id := r.value]
      ensures queue == old(queue) && order == old(order) && running == old(running)
      ensures started == old(started) && inFlight == old(inFlight)
      ensures p.status.None? && old(QueuedMeansWaiting()) ==> QueuedMeansWaiting()
    {
      if id !in jobs {
        return None;
      }
      var job := Assign(jobs[id], p);
      jobs := jobs[id := job];
      r := Some(job);
    }

    /** One turn of `#drain`'s loop: `shift` the head of the queue, count it as running, and mark it RUNNING. */
    method StartHead(now: Time) returns (id: Id)
      requires Inv() && queue != []
      modifies this
      ensures id == old(queue)[0] && order == old(order)
      ensures queue == old(queue)[1..] && running == old(running) + 1
      ensures Snapshot() == StartNext(old(Snapshot()), now)
    {
      id := queue[0];
      assert id in jobs by {
        assert order[started] == id;
      }
      queue := queue[1..];
      running := running + 1;
      inFlight := inFlight + {started};
      started := started + 1;
      jobs := jobs[id := Assign(jobs[id], StartPatch(now))];
    }

    /**
     * `#drain`: while a slot is free and a job waits, start the job at the
     * front of the queue; `k` jobs start.
     */
    method Drain(now: Time) returns (ghost k: nat)
      requires Inv()
      modifies this
      ensures Valid() && order == old(order)
      ensures Snapshot() == StartMany(old(Snapshot()), k, now)
      ensures k <= |old(queue)| && queue == old(queue)[k..] && running == old(running) + k
      ensures old(QueuedMeansWaiting()) ==> QueuedMeansWaiting()
    {
      k := 0;
      while running < concurrency && |queue| > 0
        invariant Inv() && order == old(order)
        invariant Snapshot() == StartMany(old(Snapshot()), k, now)
        invariant k <= |old(queue)| && queue == old(queue)[k..] && running == old(running) + k
        invariant old(QueuedMeansWaiting()) ==> QueuedMeansWaiting()
        decreases |queue|
      {
        ghost var before := Snapshot();
        StartNextKeeps(before, order, concurrency, now);
        var id := StartHead(now);
        k := k + 1;
      }
    }

    /** `enqueue` before its drain: `#jobs.set` then `#queue.push`. */
    method Register(job: Job)
      requires Inv() && job.id !in jobs
      modifies this
      ensures Inv() && order == old(order) + [job.id]
      ensures Snapshot() == Push(old(Snapshot()), job.id, job)
      ensures old(QueuedMeansWaiting()) && job.status == QUEUED ==> QueuedMeansWaiting()
    {
      ghost var before, order0 := Snapshot(), order;
      jobs := jobs[job.id := job];
      order := order + [job.id];
      queue := queue + [job.id];
      assert Snapshot() == Push(before, job.id, job);
      PushKeeps(before, order0, concurrency, job.id, job);
    }

    /** `#run` records the settled job in place (`Object.assign`), then its `finally` frees its slot (place `p` in enqueue order). */
    method Settle(id: Id, ghost p: nat, settled: Job)
      requires Inv() && p in inFlight && p < |order| && order[p] == id
      modifies this
      ensures Inv() && order == old(order)
      ensures Snapshot() == Release(old(Snapshot()), p, order[p], settled)
      ensures old(QueuedMeansWaiting()) && settled.status != QUEUED ==> QueuedMeansWaiting()
    {
      ReleaseKeeps(Snapshot(), order, concurrency, p, settled);
      jobs := jobs[id := settled];
      running := running - 1;
      inFlight := inFlight - {p};
    }

    /**
     * `enqueue`: register a QUEUED job at the back of the queue and drain.
     * The source returns the registered object itself, so when a slot is
     * free it is already RUNNING by the time the caller sees it.
     */
    method Enqueue(jobType: string, input: JsValue, newId: Id, now: Time) returns (r: Job)
      requires Valid() && newId !in jobs
      modifies this
      ensures Valid()
      ensures order == old(order) + [newId] && newId in jobs && r == jobs[newId]
      ensures jobs == old(jobs)[newId := r]
      ensures old(running) >= concurrency ==>
        r == NewJob(newId, jobType, input, now) && queue == old(queue) + [newId] && running == old(running)
      ensures old(running) < concurrency ==>
        r == Assign(NewJob(newId, jobType, input, now), StartPatch(now)) && queue == [] && running == old(running) + 1
      ensures old(QueuedMeansWaiting()) ==> QueuedMeansWaiting()
    {
      ghost var before := Snapshot();
      var job := NewJob(newId, jobType, input, now);
      Register(job);
      ghost var k := Drain(now);
      PushThenDrain(before, concurrency, newId, job, k, now);
      r := jobs[newId];
      assert r == if before.running >= concurrency then job else Assign(job, StartPatch(now));
    }

    /**
     * A handler settles: `#run` records the outcome, then its `finally`
     * frees the slot and drains again.
     */
    method Finish(id: Id, o: HandlerOutcome, now: Time)
      requires Valid() && InFlight(id)
      modifies this
      ensures Valid()
      ensures old(queue) == [] ==> queue == [] && running == old(running) - 1
      ensures old(queue) != [] ==> (queue == old(queue)[1..] && running == old(running))
      ensures id in jobs && jobs[id] == Assign(old(jobs)[id], SettlePatch(o, now))
      ensures !InFlight(id)
      // the head of the queue, if any, starts in the freed slot
      ensures old(queue) != [] ==>
        && old(queue)[0] != id && old(queue)[0] in old(jobs) && old(queue)[0] in jobs
        && jobs[old(queue)[0]] == Assign(old(jobs)[old(queue)[0]], StartPatch(now))
        && jobs[old(queue)[0]].status == RUNNING && jobs[old(queue)[0]].startedAt == Some(now)
      // every other job keeps its record
      ensures jobs.Keys == old(jobs).Keys
      ensures forall j :: j in old(jobs) && j != id && (old(queue) == [] || j != old(queue)[0]) ==> jobs[j] == old(jobs)[j]
      ensures old(QueuedMeansWaiting()) ==> QueuedMeansWaiting()
    {
      ghost var before := Snapshot();
      ghost var p :| p in inFlight && p < |order| && order[p] == id;
      var settled := Assign(jobs[id], SettlePatch(o, now));
      Settle(id, p, settled);
      ghost var k := Drain(now);
      ReleaseThenDrain(before, order, concurrency, p, settled, k, now);
    }
  }

  /**
   * A settled job is finished at `now`: a returned value makes it SUCCEEDED
   * with that result and its error untouched; a failure makes it FAILED with
   * the thrown message, or "Job failed" when the message is falsy, and its
   * result untouched. Its identity and start are never changed.
   */
  lemma SettledRecord(j: Job, o: HandlerOutcome, now: Time)
    ensures var k := Assign(j, SettlePatch(o, now));
      && k.id == j.id && k.input == j.input && k.createdAt == j.createdAt && k.startedAt == j.startedAt
      && k.finishedAt == Some(now)
      && (o.Returned? ==> k.status == SUCCEEDED && k.result == o.value && k.error == j.error)
      && (o.Threw? ==> k.status == FAILED && k.result == j.result
                       && k.error == ErrorObject(if Truthy(o.message) then o.message else Str("Job failed")))
  {
  }
}
