/** Generic sequence operations behind the pandas idioms of the pipeline:
    boolean masks, `drop_duplicates`, `sort_values`, `zip` and `concat`. */
module Seqs {

  predicate Distinct<T(==)>(xs: seq<T>) {
    forall i, j :: 0 <= i < j < |xs| ==> xs[i] != xs[j]
  }

  /** The elements of `xs` that satisfy `p`, in their original order (a boolean mask). */
  function Filter<T>(xs: seq<T>, p: T -> bool): (r: seq<T>)
    ensures |r| <= |xs|
    ensures forall i :: 0 <= i < |r| ==> p(r[i])
  {
    if |xs| == 0 then []
    else
      assert xs == [xs[0]] + xs[1..];
      if p(xs[0]) then [xs[0]] + Filter(xs[1..], p) else Filter(xs[1..], p)
  }

  /** An element is kept exactly when it is in the input and satisfies the mask. */
  lemma {:induction false} FilterMembers<T>(xs: seq<T>, p: T -> bool)
    ensures forall x :: x in Filter(xs, p) <==> x in xs && p(x)
  {
    if |xs| > 0 {
      FilterMembers(xs[1..], p);
      assert xs == [xs[0]] + xs[1..];
    }
  }

  /** A mask only removes elements. */
  lemma {:induction false} FilterSubMultiset<T>(xs: seq<T>, p: T -> bool)
    ensures multiset(Filter(xs, p)) <= multiset(xs)
  {
    if |xs| > 0 {
      FilterSubMultiset(xs[1..], p);
      assert xs == [xs[0]] + xs[1..];
    }
  }

  /** A property of every element holds of every kept element. */
  lemma {:induction false} FilterKeeps<T>(xs: seq<T>, p: T -> bool, P: T -> bool)
    requires forall i :: 0 <= i < |xs| ==> P(xs[i])
    ensures forall i :: 0 <= i < |Filter(xs, p)| ==> P(Filter(xs, p)[i])
  {
    if |xs| > 0 {
      FilterKeeps(xs[1..], p, P);
      assert xs == [xs[0]] + xs[1..];
    }
  }

  /** ... and every kept element satisfies the mask as well. */
  lemma {:induction false} FilterKeepsMasked<T>(xs: seq<T>, p: T -> bool, P: T -> bool)
    requires forall i :: 0 <= i < |xs| ==> P(xs[i])
    ensures forall i :: 0 <= i < |Filter(xs, p)| ==> P(Filter(xs, p)[i]) && p(Filter(xs, p)[i])
  {
    if |xs| > 0 {
      FilterKeepsMasked(xs[1..], p, P);
      assert xs == [xs[0]] + xs[1..];
    }
  }

  /** An element that satisfies the mask is kept. */
  lemma FilterHas<T>(xs: seq<T>, p: T -> bool, i: nat)
    requires i < |xs| && p(xs[i])
    ensures xs[i] in Filter(xs, p)
  {
    FilterMembers(xs, p);
  }

  lemma FilterConcat<T>(a: seq<T>, b: seq<T>, p: T -> bool)
    ensures Filter(a + b, p) == Filter(a, p) + Filter(b, p)
  {
    if |a| > 0 {
      assert (a + b)[1..] == a[1..] + b;
      FilterConcat(a[1..], b, p);
    } else {
      assert a + b == b;
    }
  }

  /** A mask keeps the elements of a duplicate-free sequence duplicate-free. */
  lemma FilterDistinct<T>(xs: seq<T>, p: T -> bool)
    requires Distinct(xs)
    ensures Distinct(Filter(xs, p))
  {
    if |xs| > 0 {
      FilterDistinct(xs[1..], p);
      FilterMembers(xs[1..], p);
      assert xs[0] !in xs[1..];
    }
  }

  /** Filtering by `p` and then by `q` keeps what satisfies both. */
  lemma FilterFilter<T>(xs: seq<T>, p: T -> bool, q: T -> bool)
    ensures Filter(Filter(xs, p), q) == Filter(xs, x => p(x) && q(x))
  {
    if |xs| > 0 {
      FilterFilter(xs[1..], p, q);
    }
  }

  function Complement<T>(p: T -> bool): T -> bool {
    x => !p(x)
  }

  /** A mask and its complement split the elements without losing or adding any. */
  lemma {:induction false} PartitionMultiset<T>(xs: seq<T>, p: T -> bool)
    ensures multiset(Filter(xs, p)) + multiset(Filter(xs, Complement(p))) == multiset(xs)
  {
    if |xs| > 0 {
      PartitionMultiset(xs[1..], p);
      assert xs == [xs[0]] + xs[1..];
      assert Complement(p)(xs[0]) == !p(xs[0]);
    }
  }

  /** A property of every element survives a permutation. */
  lemma PermutationKeeps<T>(a: seq<T>, b: seq<T>, p: T -> bool)
    requires multiset(a) == multiset(b)
    requires forall i :: 0 <= i < |a| ==> p(a[i])
    ensures forall i :: 0 <= i < |b| ==> p(b[i])
  {
    forall i | 0 <= i < |b|
      ensures p(b[i])
    {
      assert b[i] in multiset(a);
      var k :| 0 <= k < |a| && a[k] == b[i];
    }
  }

  /** Number of elements that satisfy `p` (pandas `count` / `sum` of a mask). */
  function Count<T>(xs: seq<T>, p: T -> bool): nat {
    |Filter(xs, p)|
  }

  /** The distinct elements of a sequence are at most as many as its entries,
      and exactly as many when no entry repeats. */
  lemma {:induction false} SetOfSeqCard<T>(xs: seq<T>)
    ensures |set x | x in xs| <= |xs|
    ensures Distinct(xs) ==> |set x | x in xs| == |xs|
  {
    if |xs| > 0 {
      SetOfSeqCard(xs[1..]);
      assert xs == [xs[0]] + xs[1..];
      assert (set x | x in xs) == {xs[0]} + (set x | x in xs[1..]);
      if Distinct(xs) {
        assert Distinct(xs[1..]) by {
          forall i, j | 0 <= i < j < |xs[1..]|
            ensures xs[1..][i] != xs[1..][j]
          {
            assert xs[1..][i] == xs[i + 1] && xs[1..][j] == xs[j + 1];
          }
        }
        assert xs[0] !in xs[1..];
      }
    }
  }

  /** A duplicate-free sequence whose elements all occur in `ys` is no longer than `ys`. */
  lemma DistinctSubLength<T>(xs: seq<T>, ys: seq<T>)
    requires Distinct(xs)
    requires forall x :: x in xs ==> x in ys
    ensures |xs| <= |ys|
  {
    SetOfSeqCard(xs);
    SetOfSeqCard(ys);
    SubsetCard(set x | x in xs, set y | y in ys);
  }

  lemma {:induction false} SubsetCard<T>(a: set<T>, b: set<T>)
    requires a <= b
    ensures |a| <= |b|
    decreases |b|
  {
    if a != {} {
      var x :| x in a;
      SubsetCard(a - {x}, b - {x});
    }
  }

  /** ... and so are the entries of it that satisfy a mask. */
  lemma CountDistinctSub<T>(xs: seq<T>, ys: seq<T>, p: T -> bool)
    requires Distinct(xs)
    requires forall x :: x in xs ==> x in ys
    ensures Count(xs, p) <= Count(ys, p)
  {
    FilterDistinct(xs, p);
    FilterMonotone(xs, ys, p);
    DistinctSubLength(Filter(xs, p), Filter(ys, p));
  }

  /** A mask nothing satisfies keeps nothing. */
  lemma {:induction false} FilterNone<T>(xs: seq<T>, p: T -> bool)
    requires forall i :: 0 <= i < |xs| ==> !p(xs[i])
    ensures Filter(xs, p) == []
  {
    if |xs| > 0 {
      FilterNone(xs[1..], p);
    }
  }

  /** A mask every element satisfies keeps everything. */
  lemma {:induction false} FilterAll<T>(xs: seq<T>, p: T -> bool)
    requires forall i :: 0 <= i < |xs| ==> p(xs[i])
    ensures Filter(xs, p) == xs
  {
    if |xs| > 0 {
      FilterAll(xs[1..], p);
    }
  }

  /** A mask keeps the inclusion of element sets. */
  lemma FilterMonotone<T>(xs: seq<T>, ys: seq<T>, p: T -> bool)
    requires forall x :: x in xs ==> x in ys
    ensures forall x :: x in Filter(xs, p) ==> x in Filter(ys, p)
  {
    FilterMembers(xs, p);
    FilterMembers(ys, p);
  }

  lemma CountFilterLe<T>(xs: seq<T>, p: T -> bool, q: T -> bool)
    ensures Count(Filter(xs, p), q) <= Count(xs, q)
  {
    if |xs| > 0 {
      CountFilterLe(xs[1..], p, q);
    }
  }

  /** A sequence without duplicates holds each element at most once. */
  lemma {:induction false} DistinctCount<T>(xs: seq<T>, x: T)
    requires Distinct(xs)
    ensures multiset(xs)[x] <= 1
  {
    if |xs| > 0 {
      assert xs == [xs[0]] + xs[1..];
      assert Distinct(xs[1..]) by {
        forall i, j | 0 <= i < j < |xs[1..]|
          ensures xs[1..][i] != xs[1..][j]
        {
          assert xs[1..][i] == xs[i + 1] && xs[1..][j] == xs[j + 1];
        }
      }
      DistinctCount(xs[1..], x);
      if x == xs[0] {
        forall k | 0 <= k < |xs[1..]|
          ensures xs[1..][k] != x
        {
          assert xs[1..][k] == xs[k + 1];
        }
        assert x !in xs[1..];
      }
    }
  }

  /** Reordering keeps a sequence free of duplicates. */
  lemma InPair<T>(xs: seq<T>, x: T)
    requires |xs| == 2 && x in xs
    ensures x == xs[0] || x == xs[1]
  {
  }

  /** A duplicate-free sequence holding `x` and nothing else is `[x]`. */
  lemma OnlyElement<T>(xs: seq<T>, x: T)
    requires Distinct(xs) && x in xs
    requires forall y :: y in xs ==> y == x
    ensures xs == [x]
  {
    DistinctSubLength(xs, [x]);
  }

  lemma DistinctPermutation<T>(a: seq<T>, b: seq<T>)
    requires Distinct(a) && multiset(a) == multiset(b)
    ensures Distinct(b)
  {
    forall i, j | 0 <= i < j < |b|
      ensures b[i] != b[j]
    {
      if b[i] == b[j] {
        var x := b[i];
        assert b == b[..j] + [b[j]] + b[j + 1..];
        assert x in b[..j];
        assert multiset(b)[x] >= 2;
        DistinctCount(a, x);
        assert false;
      }
    }
  }

  /** Every position moved one place to the right. */
  function Shift(idx: seq<nat>): (r: seq<nat>)
    ensures |r| == |idx|
    ensures forall j :: 0 <= j < |idx| ==> r[j] == idx[j] + 1
  {
    seq(|idx|, j requires 0 <= j < |idx| => idx[j] + 1)
  }

  /** The positions of the elements of `xs` that satisfy `keep`, in increasing order. */
  function Positions<T>(xs: seq<T>, keep: T -> bool): (idx: seq<nat>)
    ensures |idx| <= |xs|
    decreases |xs|
  {
    if |xs| == 0 then []
    else if keep(xs[0]) then [0] + Shift(Positions(xs[1..], keep))
    else Shift(Positions(xs[1..], keep))
  }

  /** `r` is `f` of the elements of `xs` that satisfy `keep`, each once and in their
      order: `idx` lists their positions, increasing, and misses none. */
  ghost predicate PicksAt<T, U>(r: seq<U>, xs: seq<T>, keep: T -> bool, f: T -> U, idx: seq<nat>) {
    PickedValues(r, xs, keep, f, idx) && Increasing(idx) && CoversKept(xs, keep, idx)
  }

  /** `r[j]` is `f` of the kept element at position `idx[j]`. */
  ghost predicate PickedValues<T, U>(r: seq<U>, xs: seq<T>, keep: T -> bool, f: T -> U, idx: seq<nat>) {
    && |idx| == |r|
    && (forall j :: 0 <= j < |idx| ==> idx[j] < |xs| && keep(xs[idx[j]]) && r[j] == f(xs[idx[j]]))
  }

  /** The positions strictly increase. */
  ghost predicate Increasing(idx: seq<nat>) {
    forall j, k :: 0 <= j < k < |idx| ==> idx[j] < idx[k]
  }

  /** Every kept position of `xs` is listed. */
  ghost predicate CoversKept<T>(xs: seq<T>, keep: T -> bool, idx: seq<nat>) {
    forall i :: 0 <= i < |xs| && keep(xs[i]) ==> i in idx
  }

  /** Picking from `xs` is deciding its head, then picking from its tail. */
  lemma PicksStep<T, U>(xs: seq<T>, keep: T -> bool, f: T -> U, rest: seq<U>)
    requires |xs| > 0
    requires PicksAt(rest, xs[1..], keep, f, Positions(xs[1..], keep))
    ensures PicksAt(if keep(xs[0]) then [f(xs[0])] + rest else rest, xs, keep, f, Positions(xs, keep))
  {
    var idx0 := Positions(xs[1..], keep);
    if keep(xs[0]) {
      assert Positions(xs, keep) == [0] + Shift(idx0);
      PicksTaken(xs, keep, f, rest, idx0);
    } else {
      assert Positions(xs, keep) == Shift(idx0);
      PicksSkipped(xs, keep, f, rest, idx0);
    }
  }

  lemma PicksTaken<T, U>(xs: seq<T>, keep: T -> bool, f: T -> U, rest: seq<U>, idx0: seq<nat>)
    requires |xs| > 0 && keep(xs[0])
    requires PicksAt(rest, xs[1..], keep, f, idx0)
    ensures PicksAt([f(xs[0])] + rest, xs, keep, f, [0] + Shift(idx0))
  {
    ShiftValues(xs, keep, f, rest, idx0);
    ShiftCovers(xs, keep, idx0);
    TakenValues(xs, keep, f, rest, Shift(idx0));
    TakenIncreasing(Shift(idx0));
    TakenCovers(xs, keep, Shift(idx0));
  }

  lemma PicksSkipped<T, U>(xs: seq<T>, keep: T -> bool, f: T -> U, rest: seq<U>, idx0: seq<nat>)
    requires |xs| > 0 && !keep(xs[0])
    requires PicksAt(rest, xs[1..], keep, f, idx0)
    ensures PicksAt(rest, xs, keep, f, Shift(idx0))
  {
    ShiftValues(xs, keep, f, rest, idx0);
    ShiftCovers(xs, keep, idx0);
    SkippedCovers(xs, keep, Shift(idx0));
  }

  /** Every kept element is picked. */
  lemma PicksPresent<T, U>(r: seq<U>, xs: seq<T>, keep: T -> bool, f: T -> U, idx: seq<nat>)
    requires PicksAt(r, xs, keep, f, idx)
    ensures forall i :: 0 <= i < |xs| && keep(xs[i]) ==> f(xs[i]) in r
  {
    forall i | 0 <= i < |xs| && keep(xs[i])
      ensures f(xs[i]) in r
    {
      var j :| 0 <= j < |idx| && idx[j] == i;
      assert r[j] == f(xs[i]);
    }
  }

  /** The tail's picks, at shifted positions, are picks of the whole sequence. */
  lemma ShiftValues<T, U>(xs: seq<T>, keep: T -> bool, f: T -> U, rest: seq<U>, idx0: seq<nat>)
    requires |xs| > 0
    requires PickedValues(rest, xs[1..], keep, f, idx0)
    ensures PickedValues(rest, xs, keep, f, Shift(idx0))
    ensures forall j :: 0 <= j < |idx0| ==> 1 <= Shift(idx0)[j]
  {
    var sh := Shift(idx0);
    forall j | 0 <= j < |sh|
      ensures sh[j] < |xs| && keep(xs[sh[j]]) && rest[j] == f(xs[sh[j]])
    {
      assert xs[sh[j]] == xs[1..][idx0[j]];
    }
  }

  /** The shifted positions of the tail cover every kept position after the head. */
  lemma ShiftCovers<T>(xs: seq<T>, keep: T -> bool, idx0: seq<nat>)
    requires |xs| > 0
    requires CoversKept(xs[1..], keep, idx0)
    ensures Increasing(idx0) ==> Increasing(Shift(idx0))
    ensures forall i :: 0 < i < |xs| && keep(xs[i]) ==> i in Shift(idx0)
  {
    var sh := Shift(idx0);
    forall i | 0 < i < |xs| && keep(xs[i])
      ensures i in sh
    {
      assert xs[1..][i - 1] == xs[i];
      var j :| 0 <= j < |idx0| && idx0[j] == i - 1;
      assert sh[j] == i;
    }
  }

  lemma TakenValues<T, U>(xs: seq<T>, keep: T -> bool, f: T -> U, rest: seq<U>, sh: seq<nat>)
    requires |xs| > 0 && keep(xs[0])
    requires PickedValues(rest, xs, keep, f, sh)
    ensures PickedValues([f(xs[0])] + rest, xs, keep, f, [0] + sh)
  {
    var idx := [0] + sh;
    var r := [f(xs[0])] + rest;
    forall j | 1 <= j < |idx|
      ensures idx[j] == sh[j - 1] && r[j] == rest[j - 1]
    {
    }
  }

  lemma TakenIncreasing(sh: seq<nat>)
    requires Increasing(sh)
    requires forall j :: 0 <= j < |sh| ==> 1 <= sh[j]
    ensures Increasing([0] + sh)
  {
    var idx := [0] + sh;
    forall j, k | 0 <= j < k < |idx|
      ensures idx[j] < idx[k]
    {
      assert idx[k] == sh[k - 1];
      if j > 0 {
        assert idx[j] == sh[j - 1];
      }
    }
  }

  lemma TakenCovers<T>(xs: seq<T>, keep: T -> bool, sh: seq<nat>)
    requires |xs| > 0
    requires forall i :: 0 < i < |xs| && keep(xs[i]) ==> i in sh
    ensures CoversKept(xs, keep, [0] + sh)
  {
    var idx := [0] + sh;
    forall i | 0 <= i < |xs| && keep(xs[i])
      ensures i in idx
    {
      if i > 0 {
        var j :| 0 <= j < |sh| && sh[j] == i;
        assert idx[j + 1] == i;
      }
    }
  }

  lemma SkippedCovers<T>(xs: seq<T>, keep: T -> bool, sh: seq<nat>)
    requires |xs| > 0 && !keep(xs[0])
    requires forall i :: 0 < i < |xs| && keep(xs[i]) ==> i in sh
    ensures CoversKept(xs, keep, sh)
  {
  }

  /** `f` of the elements of `xs` that satisfy `keep`, in order. */
  function Pick<T, U>(xs: seq<T>, keep: T -> bool, f: T -> U): (r: seq<U>)
    ensures PicksAt(r, xs, keep, f, Positions(xs, keep))
    decreases |xs|
  {
    if |xs| == 0 then []
    else
      var rest := Pick(xs[1..], keep, f);
      PicksStep(xs, keep, f, rest);
      if keep(xs[0]) then [f(xs[0])] + rest else rest
  }

  function Map<T, U>(xs: seq<T>, f: T -> U): (r: seq<U>)
    ensures |r| == |xs|
    ensures forall i :: 0 <= i < |xs| ==> r[i] == f(xs[i])
  {
    seq(|xs|, i requires 0 <= i < |xs| => f(xs[i]))
  }

  function Flatten<T>(xss: seq<seq<T>>): seq<T> {
    if |xss| == 0 then [] else xss[0] + Flatten(xss[1..])
  }

  /** Python's `zip` of two lists: as long as the shorter one. */
  function Zip<A, B>(a: seq<A>, b: seq<B>): (r: seq<(A, B)>)
    ensures |r| == if |a| <= |b| then |a| else |b|
    ensures forall i :: 0 <= i < |r| ==> r[i] == (a[i], b[i])
  {
    var n := if |a| <= |b| then |a| else |b|;
    seq(n, i requires 0 <= i < n => (a[i], b[i]))
  }

  /** `drop_duplicates(keep='first')`: one copy of each element, in order of first
      occurrence. Appending to the input only ever appends to the result. */
  function Dedup<T(==)>(xs: seq<T>): (r: seq<T>)
    ensures Distinct(r)
    ensures |r| <= |xs|
  {
    if |xs| == 0 then []
    else
      var d := Dedup(xs[..|xs| - 1]);
      assert xs == xs[..|xs| - 1] + [xs[|xs| - 1]];
      if xs[|xs| - 1] in d then d else d + [xs[|xs| - 1]]
  }

  /** Deduplication keeps exactly the elements of its input. */
  lemma {:induction false} DedupMembers<T>(xs: seq<T>)
    ensures forall x :: x in Dedup(xs) <==> x in xs
    decreases |xs|
  {
    if |xs| > 0 {
      var init := xs[..|xs| - 1];
      DedupMembers(init);
      assert xs == init + [xs[|xs| - 1]];
    }
  }

  /** `drop_duplicates(subset=key, keep='first')`: the first element of each key, in order. */
  function DedupBy<T, K(==)>(xs: seq<T>, key: T -> K): (r: seq<T>)
    ensures Distinct(Map(r, key))
    ensures forall i :: 0 <= i < |r| ==> r[i] in xs
    ensures forall i :: 0 <= i < |xs| ==> key(xs[i]) in Map(r, key)
    ensures |r| <= |xs|
  {
    if |xs| == 0 then []
    else
      var d := DedupBy(xs[..|xs| - 1], key);
      var last := xs[|xs| - 1];
      assert xs == xs[..|xs| - 1] + [last];
      if key(last) in Map(d, key) then d
      else
        assert Map(d + [last], key) == Map(d, key) + [key(last)];
        d + [last]
  }

  ghost predicate TotalPreorder<T(!new)>(le: (T, T) -> bool) {
    && (forall a, b :: le(a, b) || le(b, a))
    && (forall a, b, c :: le(a, b) && le(b, c) ==> le(a, c))
  }

  predicate SortedBy<T>(xs: seq<T>, le: (T, T) -> bool) {
    forall i, j :: 0 <= i < j < |xs| ==> le(xs[i], xs[j])
  }

  /** Inserts `x` after every element that is not greater than it (keeps ties in order). */
  function Insert<T>(x: T, xs: seq<T>, le: (T, T) -> bool): (r: seq<T>)
    ensures |r| == |xs| + 1
    ensures multiset(r) == multiset(xs) + multiset{x}
  {
    if |xs| == 0 then [x]
    else
      assert xs == [xs[0]] + xs[1..];
      if le(xs[0], x) then [xs[0]] + Insert(x, xs[1..], le) else [x] + xs
  }

  lemma InsertSorted<T(!new)>(x: T, xs: seq<T>, le: (T, T) -> bool)
    requires TotalPreorder(le)
    requires SortedBy(xs, le)
    ensures SortedBy(Insert(x, xs, le), le)
  {
    if |xs| > 0 {
      var r := Insert(x, xs, le);
      if le(xs[0], x) {
        var tail := Insert(x, xs[1..], le);
        InsertSorted(x, xs[1..], le);
        forall y | y in tail
          ensures le(xs[0], y)
        {
          assert y in multiset(tail);
          if y != x {
            assert y in multiset(xs[1..]);
          }
        }
        forall i, j | 0 <= i < j < |r|
          ensures le(r[i], r[j])
        {
          if i == 0 {
            assert r[j] == tail[j - 1];
          } else {
            assert r[i] == tail[i - 1] && r[j] == tail[j - 1];
          }
        }
      } else {
        assert le(x, xs[0]);
        forall i, j | 0 <= i < j < |r|
          ensures le(r[i], r[j])
        {
          if i == 0 {
            assert r[j] == xs[j - 1];
            if j > 1 {
              assert le(xs[0], xs[j - 1]);
            }
          } else {
            assert r[i] == xs[i - 1] && r[j] == xs[j - 1];
          }
        }
      }
    }
  }

  /** A stable insertion sort: sorted by `le` and a permutation of its input. */
  function Sort<T(!new)>(xs: seq<T>, le: (T, T) -> bool): (r: seq<T>)
    requires TotalPreorder(le)
    ensures |r| == |xs|
    ensures multiset(r) == multiset(xs)
    ensures SortedBy(r, le)
  {
    if |xs| == 0 then []
    else
      var s := Sort(xs[..|xs| - 1], le);
      InsertSorted(xs[|xs| - 1], s, le);
      assert xs == xs[..|xs| - 1] + [xs[|xs| - 1]];
      Insert(xs[|xs| - 1], s, le)
  }
}
