/** The array operations the site applies to its in-memory lists:
    `filter`, `map` that swaps matching entries, and index-based removal. */
module Lists {

  /** `a` can be obtained from `b` by deleting entries; order is kept. */
  predicate IsSubsequence<T(==)>(a: seq<T>, b: seq<T>)
    decreases |b|
  {
    |a| == 0 ||
    (|b| > 0 && ((a[0] == b[0] && IsSubsequence(a[1..], b[1..])) || IsSubsequence(a, b[1..])))
  }

  /** `xs.filter(keep)`. */
  function Filter<T(==)>(xs: seq<T>, keep: T -> bool): (r: seq<T>)
    ensures |r| <= |xs|
    ensures forall i :: 0 <= i < |r| ==> keep(r[i]) && r[i] in xs
    ensures forall i :: 0 <= i < |xs| && keep(xs[i]) ==> xs[i] in r
  {
    if |xs| == 0 then []
    else if keep(xs[0]) then [xs[0]] + Filter(xs[1..], keep)
    else Filter(xs[1..], keep)
  }

  /** `xs.map(x => hit(x) ? v : x)`. */
  function ReplaceWhere<T>(xs: seq<T>, hit: T -> bool, v: T): (r: seq<T>)
    ensures |r| == |xs|
  {
    seq(|xs|, i requires 0 <= i < |xs| => if hit(xs[i]) then v else xs[i])
  }

  /** `xs.filter((_, i) => i !== k)`: drops the entry at `k`, if any. */
  function RemoveAt<T>(xs: seq<T>, k: int): seq<T>
  {
    if 0 <= k < |xs| then xs[..k] + xs[k + 1..] else xs
  }

  /** The entries a filter keeps, counted. */
  function Count<T>(xs: seq<T>, p: T -> bool): nat
  {
    if |xs| == 0 then 0 else (if p(xs[0]) then 1 else 0) + Count(xs[1..], p)
  }

  // ---------------------------------------------------------------------
  // Lemmas

  /** A filter keeps its input's order: the result is a subsequence. */
  lemma {:induction false} FilterIsSubsequence<T>(xs: seq<T>, keep: T -> bool)
    ensures IsSubsequence(Filter(xs, keep), xs)
  {
    if |xs| > 0 {
      FilterIsSubsequence(xs[1..], keep);
      var r := Filter(xs, keep);
      if keep(xs[0]) {
        assert r[0] == xs[0] && r[1..] == Filter(xs[1..], keep);
      }
    }
  }

  /** A filter keeps exactly as many entries as satisfy its predicate. */
  lemma {:induction false} FilterLength<T>(xs: seq<T>, keep: T -> bool)
    ensures |Filter(xs, keep)| == Count(xs, keep)
  {
    if |xs| > 0 {
      FilterLength(xs[1..], keep);
    }
  }

  /** A filter that rejects nothing returns its input. */
  lemma {:induction false} FilterKeepsAll<T>(xs: seq<T>, keep: T -> bool)
    requires forall i :: 0 <= i < |xs| ==> keep(xs[i])
    ensures Filter(xs, keep) == xs
  {
    if |xs| > 0 {
      FilterKeepsAll(xs[1..], keep);
    }
  }

  /** Filtering twice by the same predicate is filtering once. */
  lemma FilterIdempotent<T>(xs: seq<T>, keep: T -> bool)
    ensures Filter(Filter(xs, keep), keep) == Filter(xs, keep)
  {
    var r := Filter(xs, keep);
    assert forall i :: 0 <= i < |r| ==> r[i] in r;
    FilterKeepsAll(r, keep);
  }

  /** Appending an entry the filter rejects leaves the filter's result alone. */
  lemma {:induction false} FilterAppendRejected<T>(xs: seq<T>, x: T, keep: T -> bool)
    requires !keep(x)
    ensures Filter(xs + [x], keep) == Filter(xs, keep)
  {
    if |xs| > 0 {
      assert (xs + [x])[1..] == xs[1..] + [x];
      FilterAppendRejected(xs[1..], x, keep);
    }
  }

  /** When exactly one entry matches `hit`, keeping the entries that do not
      match shortens the list by exactly one. */
  lemma RemoveOneMatch<T>(xs: seq<T>, hit: T -> bool, keep: T -> bool)
    requires forall i :: 0 <= i < |xs| ==> (keep(xs[i]) <==> !hit(xs[i]))
    requires Count(xs, hit) == 1
    ensures |Filter(xs, keep)| == |xs| - 1
  {
    FilterLength(xs, keep);
    CountComplement(xs, hit, keep);
  }

  /** Every entry satisfies exactly one of `p` and its complement `q`. */
  lemma {:induction false} CountComplement<T>(xs: seq<T>, p: T -> bool, q: T -> bool)
    requires forall i :: 0 <= i < |xs| ==> (q(xs[i]) <==> !p(xs[i]))
    ensures Count(xs, p) + Count(xs, q) == |xs|
  {
    if |xs| > 0 {
      CountComplement(xs[1..], p, q);
    }
  }

  /** A subsequence made only of kept entries is no longer than the filter. */
  lemma {:induction false} KeptSubsequenceBound<T>(a: seq<T>, xs: seq<T>, keep: T -> bool)
    requires IsSubsequence(a, xs)
    requires forall i :: 0 <= i < |a| ==> keep(a[i])
    ensures |a| <= Count(xs, keep)
    decreases |xs|
  {
    if |a| > 0 {
      if a[0] == xs[0] && IsSubsequence(a[1..], xs[1..]) {
        KeptSubsequenceBound(a[1..], xs[1..], keep);
      } else {
        KeptSubsequenceBound(a, xs[1..], keep);
      }
    }
  }

  /** The filter is pinned down by three facts: an order-keeping
      subsequence, made only of kept entries, as long as the number of kept
      entries. So a contract stating all three determines `xs.filter(keep)`,
      duplicates included. */
  lemma {:induction false} FilterUnique<T>(a: seq<T>, xs: seq<T>, keep: T -> bool)
    requires IsSubsequence(a, xs)
    requires forall i :: 0 <= i < |a| ==> keep(a[i])
    requires |a| == Count(xs, keep)
    ensures a == Filter(xs, keep)
    decreases |xs|
  {
    if |xs| == 0 {
    } else if |a| > 0 && a[0] == xs[0] && IsSubsequence(a[1..], xs[1..]) {
      FilterUnique(a[1..], xs[1..], keep);
      assert a == [a[0]] + a[1..];
    } else if |a| == 0 {
      FilterLength(xs, keep);
    } else {
      KeptSubsequenceBound(a, xs[1..], keep);
      FilterUnique(a, xs[1..], keep);
    }
  }
}
