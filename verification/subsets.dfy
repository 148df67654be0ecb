/** `itertools.combinations` and the enumeration of every non-empty subset of
    the kept terms (src/utils/upset_chart.py, lines 59-62): the subsets of size
    1, then of size 2, and so on, each size in lexicographic order of positions. */
module Combinations {
  import opened Seqs

  /** The binomial coefficient, by Pascal's rule. */
  function Binomial(n: nat, k: nat): nat {
    if k == 0 then 1 else if n == 0 then 0 else Binomial(n - 1, k - 1) + Binomial(n - 1, k)
  }

  function Pow2(n: nat): (r: nat)
    ensures r >= 1
  {
    if n == 0 then 1 else 2 * Pow2(n - 1)
  }

  function Prepend<T>(x: T): seq<T> -> seq<T> {
    c => [x] + c
  }

  /** `itertools.combinations(xs, k)`: every choice of `k` positions of `xs`,
      the positions in increasing order, the choices in lexicographic order. */
  function Choose<T>(xs: seq<T>, k: nat): (r: seq<seq<T>>)
    ensures forall i :: 0 <= i < |r| ==> |r[i]| == k
    decreases |xs|
  {
    if k == 0 then [[]]
    else if |xs| == 0 then []
    else Map(Choose(xs[1..], k - 1), Prepend(xs[0])) + Choose(xs[1..], k)
  }

  /** There are `Binomial(|xs|, k)` combinations of size `k`. */
  lemma {:induction false} ChooseCount<T>(xs: seq<T>, k: nat)
    ensures |Choose(xs, k)| == Binomial(|xs|, k)
    decreases |xs|
  {
    if k > 0 && |xs| > 0 {
      ChooseCount(xs[1..], k - 1);
      ChooseCount(xs[1..], k);
    }
  }

  predicate InSeq<T(==)>(c: seq<T>, x: T) {
    x in c
  }

  /** The mask "is an element of `c`". */
  function Within<T(==)>(c: seq<T>): T -> bool {
    x => InSeq(c, x)
  }

  /** A combination only holds elements of its input. */
  lemma {:induction false} ChooseMembers<T>(xs: seq<T>, k: nat, c: seq<T>)
    requires c in Choose(xs, k)
    ensures forall x :: x in c ==> x in xs
    decreases |xs|
  {
    if k > 0 && |xs| > 0 {
      var tail := Choose(xs[1..], k - 1);
      var m := Map(tail, Prepend(xs[0]));
      if c in m {
        var i :| 0 <= i < |tail| && m[i] == c;
        assert c == [xs[0]] + tail[i];
        ChooseMembers(xs[1..], k - 1, tail[i]);
      } else {
        ChooseMembers(xs[1..], k, c);
      }
    }
  }

  /** Two masks that agree on every element select the same elements. */
  lemma {:induction false} FilterAgree<T>(xs: seq<T>, p: T -> bool, q: T -> bool)
    requires forall x :: x in xs ==> p(x) == q(x)
    ensures Filter(xs, p) == Filter(xs, q)
  {
    if |xs| > 0 {
      FilterAgree(xs[1..], p, q);
    }
  }

  /** Over a duplicate-free input, a combination is the input masked by
      membership in the combination: it is determined by its set of elements. */
  lemma {:induction false} ChooseIsFilter<T>(xs: seq<T>, k: nat, c: seq<T>)
    requires Distinct(xs)
    requires c in Choose(xs, k)
    ensures c == Filter(xs, Within(c))
    decreases |xs|
  {
    if |xs| == 0 {
    } else if k == 0 {
      FilterNone(xs, Within(c));
    } else {
      var x := xs[0];
      var rest := xs[1..];
      assert x !in rest;
      var tail := Choose(rest, k - 1);
      if c in Map(tail, Prepend(x)) {
        var i :| 0 <= i < |tail| && Map(tail, Prepend(x))[i] == c;
        var c' := tail[i];
        assert c == [x] + c';
        ChooseIsFilter(rest, k - 1, c');
        FilterAgree(rest, Within(c), Within(c'));
        assert Within(c)(x);
      } else {
        ChooseIsFilter(rest, k, c);
        ChooseMembers(rest, k, c);
        assert !Within(c)(x);
      }
    }
  }

  /** Every masked copy of the input is one of its combinations: no subset is
      missed by the enumeration. */
  lemma {:induction false} FilterChosen<T>(xs: seq<T>, p: T -> bool)
    ensures Filter(xs, p) in Choose(xs, |Filter(xs, p)|)
  {
    if |xs| > 0 {
      var f := Filter(xs[1..], p);
      FilterChosen(xs[1..], p);
      FilterStep(xs, p);
      if p(xs[0]) {
        TakenChosen(xs, f);
      } else {
        SkippedChosen(xs, f);
      }
    }
  }

  /** A combination of the tail, with the head put in front, is a combination. */
  lemma TakenChosen<T>(xs: seq<T>, c: seq<T>)
    requires |xs| > 0 && c in Choose(xs[1..], |c|)
    ensures [xs[0]] + c in Choose(xs, |[xs[0]] + c|)
  {
    ChooseStep(xs, |c| + 1);
    PrependedIn(Choose(xs[1..], |c|), xs[0], c);
  }

  /** A combination of the tail is a combination. */
  lemma SkippedChosen<T>(xs: seq<T>, c: seq<T>)
    requires |xs| > 0 && c in Choose(xs[1..], |c|)
    ensures c in Choose(xs, |c|)
  {
    if |c| > 0 {
      ChooseStep(xs, |c|);
    }
  }

  lemma ChooseStep<T>(xs: seq<T>, k: nat)
    requires k > 0 && |xs| > 0
    ensures Choose(xs, k) == Map(Choose(xs[1..], k - 1), Prepend(xs[0])) + Choose(xs[1..], k)
  {
  }

  lemma PrependedIn<T>(cs: seq<seq<T>>, x: T, c: seq<T>)
    requires c in cs
    ensures [x] + c in Map(cs, Prepend(x))
  {
    var i :| 0 <= i < |cs| && cs[i] == c;
    assert Map(cs, Prepend(x))[i] == [x] + c;
  }

  lemma FilterStep<T>(xs: seq<T>, p: T -> bool)
    requires |xs| > 0
    ensures Filter(xs, p) == if p(xs[0]) then [xs[0]] + Filter(xs[1..], p) else Filter(xs[1..], p)
  {
  }

  /** Over a duplicate-free input no combination is listed twice. */
  lemma {:induction false} ChooseDistinct<T>(xs: seq<T>, k: nat)
    requires Distinct(xs)
    ensures Distinct(Choose(xs, k))
    decreases |xs|
  {
    if k > 0 && |xs| > 0 {
      var x := xs[0];
      var rest := xs[1..];
      assert x !in rest;
      ChooseDistinct(rest, k - 1);
      ChooseDistinct(rest, k);
      var a := Map(Choose(rest, k - 1), Prepend(x));
      var b := Choose(rest, k);
      forall i, j | 0 <= i < |a| && 0 <= j < |b|
        ensures a[i] != b[j]
      {
        ChooseMembers(rest, k, b[j]);
        assert a[i][0] == x;
      }
      forall i, j | 0 <= i < j < |a|
        ensures a[i] != a[j]
      {
        assert a[i][1..] == Choose(rest, k - 1)[i];
        assert a[j][1..] == Choose(rest, k - 1)[j];
      }
      assert Choose(xs, k) == a + b;
    }
  }

  /** The combinations of sizes 1 to `k`, the sizes in increasing order. */
  function ChooseUpTo<T>(xs: seq<T>, k: nat): (r: seq<seq<T>>)
    ensures forall i :: 0 <= i < |r| ==> 1 <= |r[i]| <= k
  {
    if k == 0 then [] else ChooseUpTo(xs, k - 1) + Choose(xs, k)
  }

  /** All non-empty subsets, as the pipeline lists them. */
  function Subsets<T>(xs: seq<T>): seq<seq<T>> {
    ChooseUpTo(xs, |xs|)
  }

  /** Sum of the binomial coefficients `Binomial(n, 0) + … + Binomial(n, k)`. */
  function BinomialSum(n: nat, k: nat): nat {
    Binomial(n, k) + (if k == 0 then 0 else BinomialSum(n, k - 1))
  }

  lemma {:induction false} BinomialBeyond(n: nat, k: nat)
    requires k > n
    ensures Binomial(n, k) == 0
  {
    if n > 0 {
      BinomialBeyond(n - 1, k - 1);
      BinomialBeyond(n - 1, k);
    }
  }

  lemma {:induction false} BinomialSumStep(n: nat, k: nat)
    ensures BinomialSum(n + 1, k + 1) == BinomialSum(n, k + 1) + BinomialSum(n, k)
  {
    if k > 0 {
      BinomialSumStep(n, k - 1);
    }
  }

  /** The binomial coefficients of one row add up to a power of two. */
  lemma {:induction false} BinomialRow(n: nat)
    ensures BinomialSum(n, n) == Pow2(n)
  {
    if n > 0 {
      BinomialRow(n - 1);
      BinomialSumStep(n - 1, n - 1);
      BinomialBeyond(n - 1, n);
    }
  }

  lemma {:induction false} ChooseUpToCount<T>(xs: seq<T>, k: nat)
    ensures |ChooseUpTo(xs, k)| + 1 == BinomialSum(|xs|, k)
  {
    if k > 0 {
      ChooseUpToCount(xs, k - 1);
      ChooseCount(xs, k);
    }
  }

  /** There are exactly 2^d − 1 non-empty subsets of d terms. */
  lemma SubsetsCount<T>(xs: seq<T>)
    ensures |Subsets(xs)| == Pow2(|xs|) - 1
  {
    ChooseUpToCount(xs, |xs|);
    BinomialRow(|xs|);
  }

  /** Subsets are listed by non-decreasing size. */
  lemma {:induction false} ChooseUpToSorted<T>(xs: seq<T>, k: nat)
    ensures forall i, j :: 0 <= i < j < |ChooseUpTo(xs, k)| ==> |ChooseUpTo(xs, k)[i]| <= |ChooseUpTo(xs, k)[j]|
  {
    if k > 0 {
      ChooseUpToSorted(xs, k - 1);
    }
  }

  lemma {:induction false} ChooseUpToMembers<T>(xs: seq<T>, k: nat, c: seq<T>)
    requires c in ChooseUpTo(xs, k)
    ensures 1 <= |c| <= k && c in Choose(xs, |c|)
  {
    if k > 0 && c !in Choose(xs, k) {
      ChooseUpToMembers(xs, k - 1, c);
    }
  }

  lemma ChooseUpToHas<T>(xs: seq<T>, k: nat, c: seq<T>)
    requires 1 <= |c| <= k && c in Choose(xs, |c|)
    ensures c in ChooseUpTo(xs, k)
  {
    var j := |c|;
    ChooseUpToStep(xs, j);
    InRight(ChooseUpTo(xs, j - 1), Choose(xs, j), c);
    while j < k
      invariant |c| <= j <= k && c in ChooseUpTo(xs, j)
    {
      ChooseUpToStep(xs, j + 1);
      InLeft(ChooseUpTo(xs, j), Choose(xs, j + 1), c);
      j := j + 1;
    }
  }

  lemma InLeft<T>(a: seq<T>, b: seq<T>, x: T)
    requires x in a
    ensures x in a + b
  {
  }

  lemma InRight<T>(a: seq<T>, b: seq<T>, x: T)
    requires x in b
    ensures x in a + b
  {
  }

  lemma ChooseUpToStep<T>(xs: seq<T>, k: nat)
    requires k > 0
    ensures ChooseUpTo(xs, k) == ChooseUpTo(xs, k - 1) + Choose(xs, k)
  {
  }

  /** Every listed subset is a non-empty masked copy of the terms, and every
      non-empty masked copy of the terms is listed. */
  lemma SubsetsComplete<T>(xs: seq<T>, p: T -> bool)
    ensures Filter(xs, p) in Subsets(xs) <==> |Filter(xs, p)| > 0
  {
    FilterChosen(xs, p);
    if |Filter(xs, p)| > 0 {
      ChooseUpToHas(xs, |xs|, Filter(xs, p));
    }
  }

  /** Over duplicate-free terms each listed subset is determined by its set of elements. */
  lemma SubsetIsFilter<T>(xs: seq<T>, c: seq<T>)
    requires Distinct(xs) && c in Subsets(xs)
    ensures c == Filter(xs, Within(c)) && |c| > 0
  {
    ChooseUpToMembers(xs, |xs|, c);
    ChooseIsFilter(xs, |c|, c);
  }

  /** Over duplicate-free terms no subset is listed twice. */
  lemma {:induction false} ChooseUpToDistinct<T>(xs: seq<T>, k: nat)
    requires Distinct(xs)
    ensures Distinct(ChooseUpTo(xs, k))
  {
    if k > 0 {
      ChooseUpToDistinct(xs, k - 1);
      ChooseDistinct(xs, k);
      var a := ChooseUpTo(xs, k - 1);
      var b := Choose(xs, k);
      forall i, j | 0 <= i < |a| && 0 <= j < |b|
        ensures a[i] != b[j]
      {
      }
      assert ChooseUpTo(xs, k) == a + b;
    }
  }
}
