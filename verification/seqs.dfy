/**
 The two array scans the source uses everywhere: `Array.prototype.filter`
 (order-preserving selection) and `Array.prototype.find` (first match).
 */
module Seqs {

  datatype Option<+T> = None | Some(value: T)

  /** `xs.filter(p)` */
  function Filter<T>(xs: seq<T>, p: T -> bool): (r: seq<T>)
    ensures |r| <= |xs|
    ensures forall i :: 0 <= i < |r| ==> p(r[i])
    ensures forall i :: 0 <= i < |r| ==> r[i] in xs
    ensures forall i :: 0 <= i < |xs| && p(xs[i]) ==> xs[i] in r
  {
    if |xs| == 0 then []
    else if p(xs[0]) then [xs[0]] + Filter(xs[1..], p)
    else Filter(xs[1..], p)
  }

  /** `a` is `b` with some elements dropped and the rest kept in order. */
  predicate IsSubsequence<T(==)>(a: seq<T>, b: seq<T>)
    decreases |b|
  {
    |a| == 0 || (|b| > 0 && ((a[0] == b[0] && IsSubsequence(a[1..], b[1..])) || IsSubsequence(a, b[1..])))
  }

  /** Filtering keeps exactly the satisfying elements, each as often as it occurs, in their original order. */
  lemma {:induction false} FilterSpec<T>(xs: seq<T>, p: T -> bool)
    ensures IsSubsequence(Filter(xs, p), xs)
    ensures forall x :: multiset(Filter(xs, p))[x] == if p(x) then multiset(xs)[x] else 0
  {
    if |xs| > 0 {
      FilterSpec(xs[1..], p);
      assert xs == [xs[0]] + xs[1..];
      var r := Filter(xs, p);
      if p(xs[0]) {
        assert r[0] == xs[0] && r[1..] == Filter(xs[1..], p);
      } else if |r| > 0 {
        assert IsSubsequence(r, xs[1..]);
      }
    }
  }

  lemma {:induction false} FilterKeepsAll<T>(xs: seq<T>, p: T -> bool)
    requires forall i :: 0 <= i < |xs| ==> p(xs[i])
    ensures Filter(xs, p) == xs
  {
    if |xs| > 0 {
      FilterKeepsAll(xs[1..], p);
    }
  }

  lemma {:induction false} FilterDropsAll<T>(xs: seq<T>, p: T -> bool)
    requires forall i :: 0 <= i < |xs| ==> !p(xs[i])
    ensures Filter(xs, p) == []
  {
    if |xs| > 0 {
      FilterDropsAll(xs[1..], p);
    }
  }

  /** Filtering distributes over concatenation. */
  lemma {:induction false} FilterAppend<T>(xs: seq<T>, ys: seq<T>, p: T -> bool)
    ensures Filter(xs + ys, p) == Filter(xs, p) + Filter(ys, p)
  {
    if |xs| == 0 {
      assert xs + ys == ys;
    } else {
      var zs := xs + ys;
      assert zs[0] == xs[0];
      assert zs[1..] == xs[1..] + ys;
      FilterAppend(xs[1..], ys, p);
      var head := if p(xs[0]) then [xs[0]] else [];
      assert Filter(zs, p) == head + Filter(zs[1..], p);
      assert Filter(xs, p) == head + Filter(xs[1..], p);
    }
  }

  /** Two filters in a row select what one filter on the conjunction selects. */
  lemma {:induction false} FilterFilter<T>(xs: seq<T>, p: T -> bool, q: T -> bool)
    ensures Filter(Filter(xs, p), q) == Filter(xs, x => p(x) && q(x))
  {
    if |xs| > 0 {
      FilterFilter(xs[1..], p, q);
    }
  }

  /** The specification of two filters in a row: the conjunction, in order, with multiplicity. */
  lemma FilterFilterSpec<T>(xs: seq<T>, p: T -> bool, q: T -> bool)
    ensures IsSubsequence(Filter(Filter(xs, p), q), xs)
    ensures forall x :: multiset(Filter(Filter(xs, p), q))[x] == if p(x) && q(x) then multiset(xs)[x] else 0
  {
    FilterFilter(xs, p, q);
    FilterSpec(xs, x => p(x) && q(x));
  }

  /** A filter and its complement split a sequence without loss or duplication. */
  lemma FilterPartition<T>(xs: seq<T>, p: T -> bool, q: T -> bool)
    requires forall i :: 0 <= i < |xs| ==> q(xs[i]) == !p(xs[i])
    ensures multiset(Filter(xs, p)) + multiset(Filter(xs, q)) == multiset(xs)
    ensures |Filter(xs, p)| + |Filter(xs, q)| == |xs|
  {
    FilterSpec(xs, p);
    FilterSpec(xs, q);
    var mp, mq, m := multiset(Filter(xs, p)), multiset(Filter(xs, q)), multiset(xs);
    forall x ensures (mp + mq)[x] == m[x] {
      if x in xs {
        var i :| 0 <= i < |xs| && xs[i] == x;
        assert q(x) == !p(x);
      }
    }
    assert mp + mq == m;
    assert |mp + mq| == |mp| + |mq|;
  }

  /** `xs.find(p)`: the first satisfying element, or undefined. */
  function Find<T>(xs: seq<T>, p: T -> bool): (r: Option<T>)
    ensures r.None? <==> forall i :: 0 <= i < |xs| ==> !p(xs[i])
    ensures r.Some? ==> exists i :: 0 <= i < |xs| && xs[i] == r.value && p(xs[i])
                                    && forall j :: 0 <= j < i ==> !p(xs[j])
  {
    if |xs| == 0 then None
    else if p(xs[0]) then Some(xs[0])
    else
      var r := Find(xs[1..], p);
      assert r.Some? ==> exists i :: 0 <= i < |xs| - 1 && xs[1..][i] == r.value && p(xs[1..][i])
                                     && forall j :: 0 <= j < i ==> !p(xs[1..][j]);
      assert r.Some? ==> exists i :: 1 <= i < |xs| && xs[i] == r.value && p(xs[i])
                                     && forall j :: 0 <= j < i ==> !p(xs[j]) by {
        if r.Some? {
          var i :| 0 <= i < |xs| - 1 && xs[1..][i] == r.value && p(xs[1..][i])
                   && forall j :: 0 <= j < i ==> !p(xs[1..][j]);
          assert forall j :: 1 <= j < i + 1 ==> !p(xs[j]) by {
            forall j | 1 <= j < i + 1 ensures !p(xs[j]) {
              assert xs[j] == xs[1..][j - 1];
            }
          }
        }
      }
      r
  }
}
