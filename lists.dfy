/**
 * `array.map(f).filter(Boolean)` where `f` answers null for entries it
 * rejects: the shape several normalisers share.
 */
module Lists {
  import opened Wrappers

  function KeepSome<A, B>(xs: seq<A>, f: A -> Option<B>): (r: seq<B>)
    ensures |r| <= |xs|
  {
    if xs == [] then []
    else match f(xs[0]) case Some(y) => [y] + KeepSome(xs[1..], f) case None => KeepSome(xs[1..], f)
  }

  /** A value is kept exactly when some entry maps to it. */
  lemma {:induction false} KeepSomeMembers<A, B>(xs: seq<A>, f: A -> Option<B>, y: B)
    ensures y in KeepSome(xs, f) <==> exists j :: 0 <= j < |xs| && f(xs[j]) == Some(y)
  {
    if xs != [] {
      KeepSomeMembers(xs[1..], f, y);
      assert forall j :: 1 <= j < |xs| ==> xs[j] == xs[1..][j - 1];
      if exists j :: 0 <= j < |xs| && f(xs[j]) == Some(y) {
        var j :| 0 <= j < |xs| && f(xs[j]) == Some(y);
        if j > 0 {
          assert f(xs[1..][j - 1]) == Some(y);
        }
      }
    }
  }

  /** Every kept value satisfies what `f` promises of its answers. */
  lemma {:induction false} KeepSomeAll<A, B>(xs: seq<A>, f: A -> Option<B>, p: B -> bool)
    requires forall x :: f(x).Some? ==> p(f(x).value)
    ensures forall i :: 0 <= i < |KeepSome(xs, f)| ==> p(KeepSome(xs, f)[i])
  {
    if xs != [] {
      KeepSomeAll(xs[1..], f, p);
    }
  }

  /** Keeping commutes with concatenation, so the kept values stay in input order. */
  lemma {:induction false} KeepSomeAppend<A, B>(xs: seq<A>, ys: seq<A>, f: A -> Option<B>)
    ensures KeepSome(xs + ys, f) == KeepSome(xs, f) + KeepSome(ys, f)
  {
    if xs == [] {
      assert xs + ys == ys;
    } else {
      var zs := xs + ys;
      assert zs[0] == xs[0] && zs[1..] == xs[1..] + ys;
      KeepSomeAppend(xs[1..], ys, f);
      match f(xs[0])
      case Some(y) =>
        assert KeepSome(zs, f) == [y] + KeepSome(zs[1..], f);
        assert KeepSome(xs, f) == [y] + KeepSome(xs[1..], f);
      case None =>
        assert KeepSome(zs, f) == KeepSome(zs[1..], f);
        assert KeepSome(xs, f) == KeepSome(xs[1..], f);
    }
  }

  /** When every entry maps to a value, all the values are kept, one per entry. */
  lemma {:induction false} KeepSomeEvery<A, B>(xs: seq<A>, f: A -> Option<B>, ys: seq<B>)
    requires |xs| == |ys| && forall i :: 0 <= i < |xs| ==> f(xs[i]) == Some(ys[i])
    ensures KeepSome(xs, f) == ys
  {
    if xs != [] {
      KeepSomeEvery(xs[1..], f, ys[1..]);
      assert f(xs[0]) == Some(ys[0]);
      assert ys == [ys[0]] + ys[1..];
    }
  }

  /**
   * Given the positions of the entries `f` maps to a value, in increasing
   * order, the kept values are those entries' values, one per position:
   * keeping neither reorders, repeats nor drops a value.
   */
  lemma {:induction false} KeepSomeAt<A, B>(xs: seq<A>, f: A -> Option<B>, idx: seq<nat>)
    requires forall k :: 0 <= k < |idx| ==> idx[k] < |xs| && f(xs[idx[k]]).Some?
    requires forall k, l :: 0 <= k < l < |idx| ==> idx[k] < idx[l]
    requires forall j :: 0 <= j < |xs| && f(xs[j]).Some? ==> j in idx
    ensures |KeepSome(xs, f)| == |idx|
    ensures forall k :: 0 <= k < |idx| ==> KeepSome(xs, f)[k] == f(xs[idx[k]]).value
    decreases |xs|
  {
    if xs == [] {
      assert forall x :: x in idx ==> x < |xs|;
    } else {
      var n := |xs| - 1;
      var init := xs[..n];
      assert xs == init + [xs[n]];
      KeepSomeAppend(init, [xs[n]], f);
      assert KeepSome([xs[n]], f) == if f(xs[n]).Some? then [f(xs[n]).value] else [] by {
        assert [xs[n]][1..] == [];
      }
      if f(xs[n]).Some? {
        var m := |idx| - 1;
        assert n in idx;
        var p :| 0 <= p < |idx| && idx[p] == n;
        assert idx[p] <= idx[m] < |xs|;
        assert p == m;
        var front := idx[..m];
        forall j | 0 <= j < |init| && f(init[j]).Some? ensures j in front {
          assert init[j] == xs[j];
          var q :| 0 <= q < |idx| && idx[q] == j;
          assert q != m;
          assert front[q] == j;
        }
        forall k | 0 <= k < |front| ensures front[k] < |init| && f(init[front[k]]).Some? {
          assert front[k] == idx[k] < idx[m];
        }
        KeepSomeAt(init, f, front);
      } else {
        forall j | 0 <= j < |init| && f(init[j]).Some? ensures j in idx {
          assert init[j] == xs[j];
        }
        forall k | 0 <= k < |idx| ensures idx[k] < |init| && f(init[idx[k]]).Some? {
          assert idx[k] != n;
        }
        KeepSomeAt(init, f, idx);
      }
    }
  }

  /** `r` is `xs` with some entries left out: the entries kept stay in the order `xs` lists them. */
  predicate Sublist<T(==)>(r: seq<T>, xs: seq<T>)
    decreases |xs|
  {
    if r == [] then true
    else if xs == [] then false
    else (r[0] == xs[0] && Sublist(r[1..], xs[1..])) || Sublist(r, xs[1..])
  }

  /** A sublist is no longer than its list and lists nothing its list does not. */
  lemma {:induction false} SublistMembers<T>(r: seq<T>, xs: seq<T>)
    requires Sublist(r, xs)
    ensures |r| <= |xs|
    ensures forall x :: x in r ==> x in xs
    decreases |xs|
  {
    if r != [] {
      if r[0] == xs[0] && Sublist(r[1..], xs[1..]) {
        SublistMembers(r[1..], xs[1..]);
        forall x | x in r ensures x in xs {
          if x != r[0] {
            assert x in r[1..];
          }
        }
      } else {
        SublistMembers(r, xs[1..]);
      }
    }
  }

  /**
   * The entry a stable sort by descending score puts first
   * (`slice().sort((a, b) => score(b) - score(a))[0]`): the first entry of
   * highest score.
   */
  function FirstBest<T>(s: seq<T>, score: T -> real): (b: nat)
    requires s != []
    ensures b < |s|
    ensures forall j :: 0 <= j < |s| ==> score(s[j]) <= score(s[b])
    ensures forall j :: 0 <= j < b ==> score(s[j]) < score(s[b])
  {
    if |s| == 1 then 0
    else
      var k := FirstBest(s[1..], score);
      assert forall j :: 1 <= j < |s| ==> s[j] == s[1..][j - 1];
      if score(s[0]) >= score(s[1..][k]) then 0 else k + 1
  }

  /** Being the highest score with every earlier score strictly lower singles out that entry. */
  lemma FirstBestUnique<T>(s: seq<T>, score: T -> real, k: nat)
    requires k < |s|
    requires forall j :: 0 <= j < |s| ==> score(s[j]) <= score(s[k])
    requires forall j :: 0 <= j < k ==> score(s[j]) < score(s[k])
    ensures FirstBest(s, score) == k
  {
    var b := FirstBest(s, score);
    assert score(s[b]) <= score(s[k]) && score(s[k]) <= score(s[b]);
  }

  /** `find`: the position of the first entry that satisfies `p`. */
  function FirstWhere<T>(s: seq<T>, p: T -> bool): (r: Option<nat>)
    ensures r.Some? ==> r.value < |s| && p(s[r.value]) && forall j :: 0 <= j < r.value ==> !p(s[j])
    ensures r.None? ==> forall j :: 0 <= j < |s| ==> !p(s[j])
  {
    if s == [] then None
    else if p(s[0]) then Some(0)
    else
      var r := FirstWhere(s[1..], p);
      assert forall j :: 1 <= j < |s| ==> s[j] == s[1..][j - 1];
      if r.Some? then Some(r.value + 1) else None
  }

  /** Appending an entry changes the first match only when there was none and the entry matches. */
  lemma FirstWhereSnoc<T>(s: seq<T>, x: T, p: T -> bool)
    ensures FirstWhere(s + [x], p) ==
      if FirstWhere(s, p).Some? then FirstWhere(s, p) else if p(x) then Some(|s|) else None
  {
    assert forall j :: 0 <= j < |s| ==> (s + [x])[j] == s[j];
    assert (s + [x])[|s|] == x;
  }

  /** The position of the last entry that satisfies `p`: what `new Map(entries)` keeps for a repeated key. */
  function LastWhere<T>(s: seq<T>, p: T -> bool): (r: Option<nat>)
    ensures r.Some? ==> r.value < |s| && p(s[r.value]) && forall j :: r.value < j < |s| ==> !p(s[j])
    ensures r.None? ==> forall j :: 0 <= j < |s| ==> !p(s[j])
  {
    if s == [] then None
    else if p(s[|s| - 1]) then Some(|s| - 1)
    else
      var r := LastWhere(s[..|s| - 1], p);
      assert forall j :: 0 <= j < |s| - 1 ==> s[j] == s[..|s| - 1][j];
      r
  }
}
