/**
 * `runWithLimit` of the ingestion service: a pool that runs a worker over
 * every item with at most `concurrency` calls in flight, and settles with
 * the results indexed by item. Worker completions and failures arrive as
 * events, in whatever order the workers finish.
 */
module Limiter {
  import opened Js

  /** `Math.max(1, Math.min(Number(limit) || 1, 50))` */
  function Concurrency(limit: JsValue): (c: real)
    ensures 1.0 <= c <= 50.0
    ensures ToNumber(limit).Finite? && 1.0 <= ToNumber(limit).r <= 50.0 ==> c == ToNumber(limit).r
    ensures ToNumber(limit).NaN? || ToNumber(limit) == Finite(0.0) ==> c == 1.0
  {
    match ToNumber(limit)
    case Finite(x) => if x == 0.0 || x < 1.0 then 1.0 else if x > 50.0 then 50.0 else x
    case Infinity(pos) => if pos then 50.0 else 1.0
    case NaN => 1.0
  }

  /** How many workers `active < concurrency` lets run at once: the concurrency rounded up. */
  function Slots(c: real): (k: int)
    ensures k as real >= c && (k - 1) as real < c
  {
    var f := c.Floor;
    if f as real == c then f else f + 1
  }

  /** An integer is below the concurrency exactly when it is below the rounded-up slot count. */
  lemma BelowSlots(a: int, c: real)
    ensures (a as real) < c <==> a < Slots(c)
  {
  }

  datatype Outcome<R> = Pending | Resolved(values: seq<R>) | Rejected(reason: string)

  class Pool<R> {
    const n: nat
    const concurrency: real
    /** The next item to hand to a worker. */
    var index: nat
    var active: nat
    /** Items whose worker has neither completed nor failed. */
    var inFlight: set<nat>
    /** Items whose worker failed; each keeps its slot for good. */
    var failed: set<nat>
    var results: map<nat, R>
    var outcome: Outcome<R>

    ghost predicate Valid()
      reads this
    {
      && index <= n
      && 1.0 <= concurrency <= 50.0
      && active <= Slots(concurrency)
      && active == |inFlight| + |failed|
      && inFlight !! failed
      && (forall i :: i in inFlight ==> i < index)
      && (forall i :: i in failed ==> i < index)
      && (forall i :: i in results ==> i < index && i !in inFlight && i !in failed)
      && (forall i :: 0 <= i < index ==> i in inFlight || i in failed || i in results)
      && (outcome.Resolved? ==> index == n && active == 0 && Complete() && outcome.values == Collected())
      && (failed != {} ==> outcome.Rejected?)
    }

    /** Every item has its result. */
    predicate Complete()
      reads this
    {
      forall i :: 0 <= i < n ==> i in results
    }

    /** The results in item order, whatever order they arrived in. */
    function Collected(): (vs: seq<R>)
      reads this
      requires Complete()
      ensures |vs| == n && forall i :: 0 <= i < n ==> vs[i] == results[i]
    {
      seq(n, i requires 0 <= i < n && Complete() reads this => results[i])
    }

    /** Start the pool over `count` items: workers start at once up to the limit; no items resolves `[]`. */
    constructor (limit: JsValue, count: nat)
      ensures Valid()
      ensures n == count && concurrency == Concurrency(limit)
      ensures results == map[] && failed == {}
      ensures count == 0 ==> outcome == Resolved([])
      ensures count > 0 ==> outcome == Pending && active == index
      ensures count > 0 ==> index == if count < Slots(concurrency) then count else Slots(concurrency)
      ensures forall i :: i in inFlight <==> 0 <= i < index
    {
      n := count;
      concurrency := Concurrency(limit);
      index := 0;
      active := 0;
      inFlight := {};
      failed := {};
      results := map[];
      outcome := Pending;
      new;
      Next();
    }

    /**
     * `next`: settle when every item has finished, otherwise start workers
     * while a slot is free and items remain. Settling an already settled
     * pool changes nothing.
     */
    method Next()
      requires Valid()
      modifies this
      ensures Valid()
      ensures results == old(results) && failed == old(failed)
      ensures old(index) >= n && old(active) == 0 ==>
        index == old(index) && inFlight == old(inFlight)
        && outcome == (if old(outcome).Pending? then Resolved(Collected()) else old(outcome))
      ensures !(old(index) >= n && old(active) == 0) ==>
        && outcome == old(outcome)
        && (index == n || active == Slots(concurrency))
        && active > 0
        && (forall i :: i in inFlight <==> i in old(inFlight) || old(index) <= i < index)
      ensures index >= old(index) && active - old(active) == index - old(index)
    {
      if index >= n && active == 0 {
        assert inFlight == {} && failed == {};
        if outcome.Pending? {
          outcome := Resolved(Collected());
        }
        return;
      }
      ghost var start := index;
      while (active as real) < concurrency && index < n
        invariant Valid()
        invariant start <= index
        invariant results == old(results) && failed == old(failed) && outcome == old(outcome)
        invariant forall i :: i in inFlight <==> i in old(inFlight) || start <= i < index
        invariant active - old(active) == index - start
        invariant index > start ==> active > 0
        decreases n - index
      {
        BelowSlots(active, concurrency);
        assert index !in inFlight;
        inFlight := inFlight + {index};
        index := index + 1;
        active := active + 1;
      }
      BelowSlots(active, concurrency);
    }

    /** Worker `i` resolved with `v`: store it at position `i`, free the slot, call `next`. */
    method Completed(i: nat, v: R)
      requires Valid() && i in inFlight
      modifies this
      ensures Valid()
      ensures results == old(results)[i := v]
      ensures failed == old(failed)
      ensures old(index) < n ==> index > old(index)
      ensures old(outcome).Pending? && index == n && active == 0 ==> outcome.Resolved?
    {
      results := results[i := v];
      inFlight := inFlight - {i};
      active := active - 1;
      Next();
    }

    /** Worker `i` rejected: the pool rejects (once), and the failed worker's slot is never freed. */
    method Failed(i: nat, reason: string)
      requires Valid() && i in inFlight
      modifies this
      ensures Valid()
      ensures outcome == if old(outcome).Pending? then Rejected(reason) else old(outcome)
      ensures active == old(active) && index == old(index) && results == old(results)
      ensures failed == old(failed) + {i} && inFlight == old(inFlight) - {i}
    {
      inFlight := inFlight - {i};
      failed := failed + {i};
      if outcome.Pending? {
        outcome := Rejected(reason);
      }
    }
  }
}
