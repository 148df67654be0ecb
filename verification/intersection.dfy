/** The intersection engine behind the UpSet view (src/utils/upset_chart.py).
    Its input is the lipid × term table: a `Names` column and one column per
    significant term, each cell a p-value (1 where the lipid is not a member).
    A lipid belongs to a term when its cell is at most the limit; the engine
    keeps at most 13 terms, lists every non-empty subset of them, sizes each by
    its exact intersection (in all terms of the subset, in none of the others),
    and keeps the bars that involve at least two terms and at least one lipid. */
module Intersection {
  import opened Wrappers
  import opened Seqs
  import opened Strings
  import opened Tables
  import opened Combinations

  const NamesColumn := "Names"

  /** At most this many terms enter the diagram. */
  const TermCap := 13

  // ---------------------------------------------------------------------
  // `dict_intersect_multi`
  // ---------------------------------------------------------------------

  /** `d.items()` as a set of pairs. */
  function Items<K, V(==)>(m: map<K, V>): set<(K, V)> {
    set k | k in m :: (k, m[k])
  }

  lemma ItemsOf<K, V>(m: map<K, V>, k: K, v: V)
    ensures (k, v) in Items(m) <==> k in m && m[k] == v
  {
    if k in m && m[k] == v {
      assert (k, m[k]) in Items(m);
    }
  }

  function IntersectAll<K(==,!new), V(==,!new)>(acc: set<(K, V)>, ds: seq<map<K, V>>): (r: set<(K, V)>)
    ensures forall p :: p in r <==> p in acc && forall i :: 0 <= i < |ds| ==> p in Items(ds[i])
  {
    if |ds| == 0 then acc
    else
      var r := IntersectAll(acc * Items(ds[0]), ds[1..]);
      assert forall i :: 1 <= i < |ds| ==> ds[i] == ds[1..][i - 1];
      r
  }

  function SubtractAll<K(==,!new), V(==,!new)>(acc: set<(K, V)>, ds: seq<map<K, V>>): (r: set<(K, V)>)
    ensures forall p :: p in r <==> p in acc && forall i :: 0 <= i < |ds| ==> p !in Items(ds[i])
  {
    if |ds| == 0 then acc
    else
      var r := SubtractAll(acc - Items(ds[0]), ds[1..]);
      assert forall i :: 1 <= i < |ds| ==> ds[i] == ds[1..][i - 1];
      r
  }

  /** `dict_intersect_multi`: the items found in every dictionary of `inside` and
      in no dictionary of `outside`. Python reads `inside[0]`, so `inside` must
      not be empty. */
  function DictIntersectMulti<K(==,!new), V(==,!new)>(inside: seq<map<K, V>>, outside: seq<map<K, V>>): (r: set<(K, V)>)
    requires |inside| > 0
    ensures forall p :: p in r <==>
      (forall i :: 0 <= i < |inside| ==> p in Items(inside[i])) &&
      (forall j :: 0 <= j < |outside| ==> p !in Items(outside[j]))
  {
    var r := SubtractAll(IntersectAll(Items(inside[0]), inside[1..]), outside);
    assert forall i :: 1 <= i < |inside| ==> inside[i] == inside[1..][i - 1];
    r
  }

  // ---------------------------------------------------------------------
  // Binarisation and the term cap
  // ---------------------------------------------------------------------

  /** `(df <= limit) * 1` for one cell: a missing cell compares false. */
  predicate IsMember(v: Value, limit: real) {
    v.Num? && v.n <= limit
  }

  /** The lipid in row `i` belongs to term `t`. */
  predicate MemberAt(rows: seq<Row>, limit: real, t: string, i: nat) {
    i < |rows| && IsMember(Cell(rows[i], t), limit)
  }

  /** `dict_of_dict[t]`: row index to binarised value, keeping the values >= 1. */
  function MemberMap(rows: seq<Row>, limit: real, t: string): (m: map<nat, int>)
    ensures forall i :: i in m <==> MemberAt(rows, limit, t, i)
    ensures forall i :: i in m ==> m[i] == 1
  {
    map i: nat | i < |rows| && IsMember(Cell(rows[i], t), limit) :: 1
  }

  function MemberMapOf(rows: seq<Row>, limit: real): string -> map<nat, int> {
    t => MemberMap(rows, limit, t)
  }

  /** The term columns: every column but `Names`. */
  function Terms(columns: seq<string>): seq<string> {
    Filter(columns, c => c != NamesColumn)
  }

  /** Column `t` holds a non-member, so its binarised minimum is 0. */
  predicate HasNonMember(rows: seq<Row>, limit: real, t: string) {
    exists i :: 0 <= i < |rows| && !IsMember(Cell(rows[i], t), limit)
  }

  function NonMemberIn(rows: seq<Row>, limit: real): string -> bool {
    t => HasNonMember(rows, limit, t)
  }

  /** `df.min().sort_values()`: the terms whose minimum is 0 before those whose minimum is 1. */
  function Ranked(terms: seq<string>, rows: seq<Row>, limit: real): (r: seq<string>)
    ensures multiset(r) == multiset(terms)
  {
    PartitionMultiset(terms, NonMemberIn(rows, limit));
    Filter(terms, NonMemberIn(rows, limit)) + Filter(terms, Complement(NonMemberIn(rows, limit)))
  }

  /** The columns that enter the diagram: all of them up to the cap, otherwise the first 13 ranked. */
  function KeptTerms(terms: seq<string>, rows: seq<Row>, limit: real): (kept: seq<string>)
    ensures |kept| == if |terms| > TermCap then TermCap else |terms|
  {
    if |terms| <= TermCap then terms
    else
      var r := Ranked(terms, rows, limit);
      assert |r| == |multiset(r)| == |terms|;
      r[..TermCap]
  }

  /** The kept columns are columns of the table, each kept once if named once. */
  lemma KeptTermsMembers(terms: seq<string>, rows: seq<Row>, limit: real)
    ensures forall t :: t in KeptTerms(terms, rows, limit) ==> t in terms
    ensures Distinct(terms) ==> Distinct(KeptTerms(terms, rows, limit))
  {
    if |terms| > TermCap {
      var r := Ranked(terms, rows, limit);
      assert |r| == |multiset(r)| == |terms|;
      forall t | t in r[..TermCap]
        ensures t in terms
      {
        assert t in multiset(r);
      }
      if Distinct(terms) {
        RankedDistinct(terms, rows, limit);
      }
    }
  }

  lemma RankedDistinct(terms: seq<string>, rows: seq<Row>, limit: real)
    requires Distinct(terms)
    ensures Distinct(Ranked(terms, rows, limit))
  {
    var p := NonMemberIn(rows, limit);
    var a := Filter(terms, p);
    var b := Filter(terms, Complement(p));
    FilterDistinct(terms, p);
    FilterDistinct(terms, Complement(p));
    forall i, j | 0 <= i < |a| && 0 <= j < |b|
      ensures a[i] != b[j]
    {
      assert p(a[i]);
      assert Complement(p)(b[j]);
    }
  }

  /** In a prefix of a stable partition, an element failing the mask is only
      present when every element passing it is. */
  lemma PartitionPrefix<T>(xs: seq<T>, p: T -> bool, n: nat, x: T, y: T)
    requires n <= |Filter(xs, p)| + |Filter(xs, Complement(p))|
    requires x in xs && p(x)
    requires y in (Filter(xs, p) + Filter(xs, Complement(p)))[..n] && !p(y)
    ensures x in (Filter(xs, p) + Filter(xs, Complement(p)))[..n]
  {
    var a := Filter(xs, p);
    var r := a + Filter(xs, Complement(p));
    var j :| 0 <= j < n && r[..n][j] == y;
    forall m | 0 <= m < |a|
      ensures p(r[m])
    {
      assert r[m] == a[m];
    }
    assert j >= |a|;
    FilterMembers(xs, p);
    var m :| 0 <= m < |a| && a[m] == x;
    assert r[..n][m] == x;
  }

  /** The cap ranks by membership, not by p-value: a column whose lipids are all
      members is kept only when no column holding a non-member was dropped. */
  lemma KeptPrefersNonMembers(terms: seq<string>, rows: seq<Row>, limit: real, dropped: string, kept: string)
    requires dropped in terms && HasNonMember(rows, limit, dropped)
    requires kept in KeptTerms(terms, rows, limit) && !HasNonMember(rows, limit, kept)
    ensures dropped in KeptTerms(terms, rows, limit)
  {
    if |terms| > TermCap {
      var p := NonMemberIn(rows, limit);
      assert p(dropped) && !p(kept);
      var r := Ranked(terms, rows, limit);
      assert |r| == |multiset(r)| == |terms|;
      assert KeptTerms(terms, rows, limit) == r[..TermCap];
      PartitionPrefix(terms, p, TermCap, dropped, kept);
    }
  }

  // ---------------------------------------------------------------------
  // Exact intersections and the partition law
  // ---------------------------------------------------------------------

  /** The pairs `(row, 1)` of the lipids in every term of `s` and in no other kept term. */
  function ExactIntersection(rows: seq<Row>, limit: real, kept: seq<string>, s: seq<string>): set<(nat, int)>
    requires |s| > 0
  {
    DictIntersectMulti(Map(s, MemberMapOf(rows, limit)), Map(Filter(kept, Complement(Within(s))), MemberMapOf(rows, limit)))
  }

  /** A pair is in the exact intersection of `s` exactly when its lipid is a
      member of every term of `s` and of no other kept term. */
  lemma ExactMembers(rows: seq<Row>, limit: real, kept: seq<string>, s: seq<string>, i: nat, v: int)
    requires |s| > 0
    ensures (i, v) in ExactIntersection(rows, limit, kept, s) <==>
      v == 1 && (forall t :: t in s ==> MemberAt(rows, limit, t, i)) &&
      (forall t :: t in kept && t !in s ==> !MemberAt(rows, limit, t, i))
  {
    var f := MemberMapOf(rows, limit);
    var inside := Map(s, f);
    var others := Filter(kept, Complement(Within(s)));
    var outside := Map(others, f);
    FilterMembers(kept, Complement(Within(s)));
    var inAll := forall k :: 0 <= k < |inside| ==> (i, v) in Items(inside[k]);
    var inNone := forall k :: 0 <= k < |outside| ==> (i, v) !in Items(outside[k]);
    if (i, v) in ExactIntersection(rows, limit, kept, s) {
      assert inAll && inNone;
      ItemsOf(inside[0], i, v);
      forall t | t in s
        ensures MemberAt(rows, limit, t, i)
      {
        var k :| 0 <= k < |s| && s[k] == t;
        ItemsOf(inside[k], i, v);
      }
      forall t | t in kept && t !in s
        ensures !MemberAt(rows, limit, t, i)
      {
        assert Complement(Within(s))(t);
        var k :| 0 <= k < |others| && others[k] == t;
        ItemsOf(outside[k], i, 1);
      }
    } else if v == 1 && (forall t :: t in s ==> MemberAt(rows, limit, t, i)) &&
      (forall t :: t in kept && t !in s ==> !MemberAt(rows, limit, t, i)) {
      forall k | 0 <= k < |inside|
        ensures (i, v) in Items(inside[k])
      {
        ItemsOf(inside[k], i, v);
      }
      forall k | 0 <= k < |outside|
        ensures (i, v) !in Items(outside[k])
      {
        assert others[k] in others;
        ItemsOf(outside[k], i, v);
      }
      assert false;
    }
  }

  /** The kept terms a lipid belongs to, in column order. */
  function MembershipOf(rows: seq<Row>, limit: real, kept: seq<string>, i: nat): seq<string> {
    Filter(kept, t => MemberAt(rows, limit, t, i))
  }

  /** Partition law, disjointness: over distinct terms, a lipid lies in the exact
      intersection of one listed subset only. */
  lemma ExactDisjoint(rows: seq<Row>, limit: real, kept: seq<string>, s1: seq<string>, s2: seq<string>, i: nat)
    requires Distinct(kept) && s1 in Subsets(kept) && s2 in Subsets(kept)
    requires (i, 1) in ExactIntersection(rows, limit, kept, s1)
    requires (i, 1) in ExactIntersection(rows, limit, kept, s2)
    ensures s1 == s2
  {
    SubsetIsFilter(kept, s1);
    SubsetIsFilter(kept, s2);
    ChooseUpToMembers(kept, |kept|, s1);
    ChooseUpToMembers(kept, |kept|, s2);
    ChooseMembers(kept, |s1|, s1);
    ChooseMembers(kept, |s2|, s2);
    ExactMembers(rows, limit, kept, s1, i, 1);
    ExactMembers(rows, limit, kept, s2, i, 1);
    FilterAgree(kept, Within(s1), Within(s2));
  }

  /** Partition law, cover: a lipid that belongs to some kept term lies in the
      exact intersection of the listed subset of exactly the terms it belongs to. */
  lemma ExactCovers(rows: seq<Row>, limit: real, kept: seq<string>, i: nat, t: string)
    requires t in kept && MemberAt(rows, limit, t, i)
    ensures MembershipOf(rows, limit, kept, i) in Subsets(kept)
    ensures |MembershipOf(rows, limit, kept, i)| > 0
    ensures (i, 1) in ExactIntersection(rows, limit, kept, MembershipOf(rows, limit, kept, i))
  {
    var p := t => MemberAt(rows, limit, t, i);
    var s := Filter(kept, p);
    FilterMembers(kept, p);
    SubsetsComplete(kept, p);
    ExactMembers(rows, limit, kept, s, i, 1);
  }

  /** Partition law, nothing extra: every lipid of an exact intersection belongs to a kept term. */
  lemma ExactWithinTerms(rows: seq<Row>, limit: real, kept: seq<string>, s: seq<string>, i: nat, v: int)
    requires s in Subsets(kept)
    requires (i, v) in ExactIntersection(rows, limit, kept, s)
    ensures v == 1 && i < |rows| && exists t :: t in kept && MemberAt(rows, limit, t, i)
  {
    ChooseUpToMembers(kept, |kept|, s);
    ChooseMembers(kept, |s|, s);
    ExactMembers(rows, limit, kept, s, i, v);
    assert s[0] in s;
  }

  // ---------------------------------------------------------------------
  // Bars
  // ---------------------------------------------------------------------

  /** One row of `plot_df`: the terms of a subset, the size of its exact
      intersection and the number of its terms. */
  datatype Bar = Bar(terms: seq<string>, size: nat, count: nat)

  function Bars(rows: seq<Row>, limit: real, kept: seq<string>, ss: seq<seq<string>>): (bs: seq<Bar>)
    requires forall i :: 0 <= i < |ss| ==> |ss[i]| > 0
    ensures |bs| == |ss|
    ensures forall i :: 0 <= i < |ss| ==> bs[i].terms == ss[i] && bs[i].count == |ss[i]|
    ensures forall i :: 0 <= i < |ss| ==> bs[i].size == |ExactIntersection(rows, limit, kept, ss[i])|
  {
    if |ss| == 0 then []
    else
      [Bar(ss[0], |ExactIntersection(rows, limit, kept, ss[0])|, |ss[0]|)] + Bars(rows, limit, kept, ss[1..])
  }

  /** `sort_values(['Counts', 'Size'])`: by number of terms, then by size. */
  predicate BarLe(a: Bar, b: Bar) {
    a.count < b.count || (a.count == b.count && a.size <= b.size)
  }

  function BarOrder(): (Bar, Bar) -> bool {
    (a: Bar, b: Bar) => BarLe(a, b)
  }

  lemma BarLePreorder()
    ensures TotalPreorder(BarOrder())
  {
  }

  /** A bar is drawn when its intersection is not empty and it involves two terms or more. */
  predicate Shown(b: Bar) {
    b.size > 0 && b.count > 1
  }

  /** What `plotly_upset_plot_pivot` computes before drawing: the kept terms and the drawn bars. */
  datatype Pivot = Pivot(kept: seq<string>, bars: seq<Bar>)

  /** The bars of all listed subsets, sorted by number of terms and size, with
      the bars that are not drawn removed. */
  function DrawnBars(rows: seq<Row>, limit: real, kept: seq<string>): (bs: seq<Bar>)
    ensures SortedBy(bs, BarOrder())
    ensures forall i :: 0 <= i < |bs| ==> Shown(bs[i])
  {
    BarLePreorder();
    var sorted := Sort(Bars(rows, limit, kept, Subsets(kept)), BarOrder());
    FilterSorted(sorted, Shown, BarOrder());
    Filter(sorted, Shown)
  }

  lemma DrawnBarsMembers(rows: seq<Row>, limit: real, kept: seq<string>, b: Bar)
    ensures b in DrawnBars(rows, limit, kept) <==> b in Bars(rows, limit, kept, Subsets(kept)) && Shown(b)
  {
    BarLePreorder();
    var bars := Bars(rows, limit, kept, Subsets(kept));
    var sorted := Sort(bars, BarOrder());
    FilterMembers(sorted, Shown);
    assert b in sorted <==> b in multiset(sorted);
    assert b in bars <==> b in multiset(bars);
  }

  /** `plotly_upset_plot_pivot` up to the plotting. Dropping `Names` fails when the
      column is absent, and `max` of the sizes fails when no bar is drawn. */
  function UpsetPivot(t: Table, limit: real): (r: Result<Pivot, Failure>)
    ensures NamesColumn !in t.columns <==> r == Err(MissingColumn(NamesColumn))
    ensures r.Ok? ==> r.value.kept == KeptTerms(Terms(t.columns), t.rows, limit)
    ensures r.Ok? ==> r.value.bars == DrawnBars(t.rows, limit, r.value.kept)
    ensures r.Ok? ==> |r.value.bars| > 0 && SortedBy(r.value.bars, BarOrder())
    ensures r.Ok? ==> forall i :: 0 <= i < |r.value.bars| ==> Shown(r.value.bars[i])
    ensures r.Err? ==> r.error == MissingColumn(NamesColumn) || r.error == EmptySequence
  {
    if NamesColumn !in t.columns then Err(MissingColumn(NamesColumn))
    else
      var kept := KeptTerms(Terms(t.columns), t.rows, limit);
      var shown := DrawnBars(t.rows, limit, kept);
      if |shown| == 0 then Err(EmptySequence) else Ok(Pivot(kept, shown))
  }

  lemma {:induction false} FilterSorted<T>(xs: seq<T>, p: T -> bool, le: (T, T) -> bool)
    requires SortedBy(xs, le)
    ensures SortedBy(Filter(xs, p), le)
  {
    if |xs| > 0 {
      FilterSorted(xs[1..], p, le);
      forall i | 0 <= i < |xs[1..]|
        ensures le(xs[0], xs[1..][i])
      {
        assert xs[1..][i] == xs[i + 1];
      }
      FilterKeeps(xs[1..], p, y => le(xs[0], y));
    }
  }

  /** Every drawn bar is a listed subset of two or more kept terms, sized by its
      non-empty exact intersection. */
  lemma DrawnBarSound(rows: seq<Row>, limit: real, kept: seq<string>, b: Bar)
    requires b in DrawnBars(rows, limit, kept)
    ensures b.terms in Subsets(kept) && b.count == |b.terms| > 1
    ensures b.size == |ExactIntersection(rows, limit, kept, b.terms)| > 0
  {
    DrawnBarsMembers(rows, limit, kept, b);
    BarsMember(rows, limit, kept, Subsets(kept), b);
  }

  lemma BarsMember(rows: seq<Row>, limit: real, kept: seq<string>, ss: seq<seq<string>>, b: Bar)
    requires forall i :: 0 <= i < |ss| ==> |ss[i]| > 0
    requires b in Bars(rows, limit, kept, ss)
    ensures b.terms in ss && |b.terms| > 0 && b.count == |b.terms|
    ensures b.size == |ExactIntersection(rows, limit, kept, b.terms)|
  {
    var bars := Bars(rows, limit, kept, ss);
    var k :| 0 <= k < |bars| && bars[k] == b;
    assert b.terms == ss[k];
  }

  /** Every listed subset of two or more kept terms with a non-empty exact
      intersection is drawn. */
  lemma DrawnBarComplete(rows: seq<Row>, limit: real, kept: seq<string>, s: seq<string>)
    requires s in Subsets(kept) && |s| > 1
    requires |ExactIntersection(rows, limit, kept, s)| > 0
    ensures Bar(s, |ExactIntersection(rows, limit, kept, s)|, |s|) in DrawnBars(rows, limit, kept)
  {
    var ss := Subsets(kept);
    var bars := Bars(rows, limit, kept, ss);
    var k :| 0 <= k < |ss| && ss[k] == s;
    DrawnBarsMembers(rows, limit, kept, bars[k]);
  }

  // ---------------------------------------------------------------------
  // Tables of the drawn bars and the VIL
  // ---------------------------------------------------------------------

  function BarKey(k: int): string {
    "Bar" + IntToString(k)
  }

  /** The index of the bar whose table becomes the VIL. Only bars whose
      materialised table is not empty get an entry in `dict_of_tables`, under
      their own index; the VIL is read under `Bar{n-1}` for `n` entries. */
  function VilIndex(bars: seq<Bar>, produced: Bar -> bool): (r: Result<nat, Failure>)
    ensures r.Ok? ==> r.value < |bars| && produced(bars[r.value])
    ensures r.Err? ==> r.error.MissingKey?
  {
    var n := Count(bars, produced);
    if n > 0 && produced(bars[n - 1]) then Ok(n - 1) else Err(MissingKey(BarKey(n - 1)))
  }

  /** When every drawn bar produced a table, the VIL is the table of the last bar:
      the one with most terms and, among those, the largest intersection. */
  lemma VilIsLargest(bars: seq<Bar>, produced: Bar -> bool)
    requires |bars| > 0 && SortedBy(bars, BarOrder())
    requires forall i :: 0 <= i < |bars| ==> produced(bars[i])
    ensures VilIndex(bars, produced) == Ok(|bars| - 1)
    ensures forall i :: 0 <= i < |bars| ==> BarLe(bars[i], bars[|bars| - 1])
  {
    FilterAll(bars, produced);
    forall i | 0 <= i < |bars| - 1
      ensures BarLe(bars[i], bars[|bars| - 1])
    {
      assert BarOrder()(bars[i], bars[|bars| - 1]);
    }
  }

  /** When a drawn bar produced no table, the key read for the VIL can name a bar
      that has none: with two drawn bars of which only the second produced a
      table, `Bar0` is read and is absent. */
  lemma VilMissing(a: Bar, b: Bar, produced: Bar -> bool)
    requires !produced(a) && produced(b)
    ensures VilIndex([a, b], produced) == Err(MissingKey("Bar0"))
  {
    assert [a, b][1..] == [b];
    assert Filter([a, b], produced) == [b];
    assert Count([a, b], produced) == 1;
    assert NatToString(0) == [DigitChar(0)] == "0";
    assert BarKey(0) == "Bar0";
  }

  // ---------------------------------------------------------------------
  // Cleaning a materialised table
  // ---------------------------------------------------------------------

  /** Where `\)$` can end: at the end of the text, or before a final newline. */
  function GroupEnd(s: string): Option<nat> {
    if |s| > 0 && s[|s| - 1] == ')' then Some(|s|)
    else if |s| > 1 && s[|s| - 1] == '\n' && s[|s| - 2] == ')' then Some(|s| - 1)
    else None
  }

  /** `\(.*\)` matches from position `k` up to `e`: `.` does not match a newline. */
  predicate GroupAt(s: string, k: nat, e: nat) {
    k + 1 < e <= |s| && s[k] == '(' && s[e - 1] == ')' && forall j :: k < j < e ==> s[j] != '\n'
  }

  /** The leftmost start at or after `k` of a match that ends at `e`. */
  function FirstGroupFrom(s: string, e: nat, k: nat): (r: Option<nat>)
    ensures r.Some? ==> k <= r.value && GroupAt(s, r.value, e)
    ensures r.Some? ==> forall j :: k <= j < r.value ==> !GroupAt(s, j, e)
    ensures r.None? ==> forall j :: k <= j ==> !GroupAt(s, j, e)
    decreases e - k
  {
    if k + 1 >= e then None
    else if GroupAt(s, k, e) then Some(k)
    else FirstGroupFrom(s, e, k + 1)
  }

  predicate NoNewline(s: string) {
    forall j :: 0 <= j < |s| ==> s[j] != '\n'
  }

  /** `str.replace(r'\(.*\)$', '', regex=True)`: removes everything from the
      leftmost '(' that starts a parenthesised tail. */
  function StripTrailingGroup(s: string): (r: string)
    ensures |r| <= |s|
    ensures NoNewline(s) ==> r == s || (StartsWith(s, r) && s[|r|] == '(' && s[|s| - 1] == ')')
  {
    match GroupEnd(s)
    case None => s
    case Some(e) =>
      match FirstGroupFrom(s, e, 0)
      case None => s
      case Some(k) => s[..k] + s[e..]
  }

  /** Stripping never leaves a parenthesised tail behind: a second pass changes
      nothing (for names without newlines, where `$` can only match at the end). */
  lemma StripIdempotent(s: string)
    requires NoNewline(s)
    ensures StripTrailingGroup(StripTrailingGroup(s)) == StripTrailingGroup(s)
  {
    var r := StripTrailingGroup(s);
    if r != s {
      var k := FirstGroupFrom(s, |s|, 0).value;
      assert r == s[..k];
      if StripTrailingGroup(r) != r {
        var k' := FirstGroupFrom(r, |r|, 0).value;
        assert GroupAt(s, k', |s|);
      }
    }
  }

  /** A name given a suffix " (tag)" loses the parenthesised part but keeps the
      space before it, provided the name itself holds no '('. */
  lemma StripSuffixed(name: string, tag: string)
    requires forall i :: 0 <= i < |name| ==> name[i] != '(' && name[i] != '\n'
    requires NoNewline(tag)
    ensures StripTrailingGroup(name + " (" + tag + ")") == name + " "
  {
    var s := name + " (" + tag + ")";
    var k := |name| + 1;
    assert s[k] == '(' && s[|s| - 1] == ')';
    assert GroupEnd(s) == Some(|s|);
    forall j | k < j < |s|
      ensures s[j] != '\n'
    {
      if j < |s| - 1 {
        assert s[j] == tag[j - k - 1];
      }
    }
    assert GroupAt(s, k, |s|);
    var f := FirstGroupFrom(s, |s|, 0);
    assert f.Some?;
    forall j | 0 <= j < k
      ensures !GroupAt(s, j, |s|)
    {
      if j < |name| {
        assert s[j] == name[j];
      }
    }
    assert f.value == k;
    assert s[..k] == name + " ";
  }

  // ---------------------------------------------------------------------
  // The tables behind the bars
  // ---------------------------------------------------------------------

  /** `x == 1.0000` in `applymap`: a cell equal to one (True compares equal to 1). */
  predicate IsOne(v: Value) {
    v == Num(1.0) || v == Bool(true)
  }

  /** The row survives `dropna` after the ones were turned into NaN. */
  predicate Complete(r: Row, cols: seq<string>) {
    forall i :: 0 <= i < |cols| ==> Cell(r, cols[i]) != Missing && !IsOne(Cell(r, cols[i]))
  }

  function CompleteIn(cols: seq<string>): Row -> bool {
    r => Complete(r, cols)
  }

  /** `final_df[search_list]` for one row. */
  function Project(cols: seq<string>): Row -> Row {
    r => map c | c in cols && c in r :: r[c]
  }

  function NameOf(): Row -> Value {
    r => Cell(r, NamesColumn)
  }

  /** `str.replace` on the `Names` column; a cell that is not text becomes NaN. */
  function StripName(v: Value): Value {
    if v.Str? then Str(StripTrailingGroup(v.s)) else Missing
  }

  function Rename(): Row -> Row {
    r => r[NamesColumn := StripName(Cell(r, NamesColumn))]
  }

  /** The clean-up of the table behind one bar (`table_df`): the `Names` column
      and the bar's terms, without the rows that hold a one or a missing cell,
      without repeated names (the first is kept), and with a trailing
      parenthesised part removed from each name. */
  function FinalizeTable(t: Table, terms: seq<string>): (r: Result<Table, Failure>)
    ensures r.Err? <==> FirstMissing([NamesColumn] + terms, t.columns).Some?
    ensures r.Err? ==> r.error == MissingColumn(FirstMissing([NamesColumn] + terms, t.columns).value)
    ensures r.Ok? ==> r.value.columns == [NamesColumn] + terms && |r.value.rows| <= |t.rows|
  {
    var cols := [NamesColumn] + terms;
    match FirstMissing(cols, t.columns)
    case Some(c) => Err(MissingColumn(c))
    case None =>
      Ok(Table(cols, Map(CleanRows(t.rows, cols), Rename())))
  }

  /** The complete rows, projected, one per name. */
  function CleanRows(rows: seq<Row>, cols: seq<string>): seq<Row> {
    DedupBy(Filter(Map(rows, Project(cols)), CompleteIn(cols)), NameOf())
  }

  lemma CleanedFrom<T, K>(xs: seq<T>, f: T -> T, p: T -> bool, key: T -> K, y: T)
    requires y in DedupBy(Filter(Map(xs, f), p), key)
    ensures p(y) && exists k :: 0 <= k < |xs| && f(xs[k]) == y
  {
    FilterMembers(Map(xs, f), p);
  }

  lemma CleanedKeeps<T, K>(xs: seq<T>, f: T -> T, p: T -> bool, key: T -> K, k: nat)
    requires k < |xs| && p(f(xs[k]))
    ensures key(f(xs[k])) in Map(DedupBy(Filter(Map(xs, f), p), key), key)
  {
    var c := Filter(Map(xs, f), p);
    FilterMembers(Map(xs, f), p);
    assert Map(xs, f)[k] == f(xs[k]);
    var m :| 0 <= m < |c| && c[m] == f(xs[k]);
  }

  /** Every row of the clean table comes from a complete row of the input,
      renamed; its term cells are neither missing nor one. */
  lemma FinalizeTableSound(t: Table, terms: seq<string>, i: nat)
    requires FinalizeTable(t, terms).Ok? && i < |FinalizeTable(t, terms).value.rows|
    requires NamesColumn !in terms
    ensures var row := FinalizeTable(t, terms).value.rows[i];
      exists k :: 0 <= k < |t.rows| && Complete(Project([NamesColumn] + terms)(t.rows[k]), [NamesColumn] + terms) &&
        row == Rename()(Project([NamesColumn] + terms)(t.rows[k]))
    ensures var row := FinalizeTable(t, terms).value.rows[i];
      forall c :: c in terms ==> Cell(row, c) != Missing && !IsOne(Cell(row, c))
  {
    var cols := [NamesColumn] + terms;
    var unique := CleanRows(t.rows, cols);
    var row := Rename()(unique[i]);
    CleanedFrom(t.rows, Project(cols), CompleteIn(cols), NameOf(), unique[i]);
    assert Complete(unique[i], cols);
    forall c | c in terms
      ensures Cell(row, c) != Missing && !IsOne(Cell(row, c))
    {
      var m :| 0 <= m < |terms| && terms[m] == c;
      assert cols[m + 1] == c;
      assert Cell(row, c) == Cell(unique[i], c);
    }
  }

  /** Every complete input row is represented: a row with its name, stripped,
      is in the clean table, so the clean table loses no lipid. */
  lemma FinalizeTableComplete(t: Table, terms: seq<string>, k: nat)
    requires FinalizeTable(t, terms).Ok? && k < |t.rows|
    requires Complete(Project([NamesColumn] + terms)(t.rows[k]), [NamesColumn] + terms)
    ensures exists i :: (0 <= i < |FinalizeTable(t, terms).value.rows| &&
      Cell(FinalizeTable(t, terms).value.rows[i], NamesColumn) == StripName(Cell(t.rows[k], NamesColumn)))
  {
    var cols := [NamesColumn] + terms;
    var unique := CleanRows(t.rows, cols);
    var projected := Project(cols)(t.rows[k]);
    CleanedKeeps(t.rows, Project(cols), CompleteIn(cols), NameOf(), k);
    var i :| 0 <= i < |unique| && Map(unique, NameOf())[i] == NameOf()(projected);
    assert cols[0] == NamesColumn;
    assert Cell(projected, NamesColumn) == Cell(t.rows[k], NamesColumn);
    assert Cell(Rename()(unique[i]), NamesColumn) == StripName(Cell(unique[i], NamesColumn));
    assert FinalizeTable(t, terms).value.rows[i] == Rename()(unique[i]);
  }

  // ---------------------------------------------------------------------
  // `upset_filter_df`
  // ---------------------------------------------------------------------

  /** The row's cell in every filtered column is one of that column's targets (`isin`). */
  predicate Matches(r: Row, filter: seq<(string, seq<Value>)>) {
    forall i :: 0 <= i < |filter| ==> Cell(r, filter[i].0) in filter[i].1
  }

  function MatchesAll(filter: seq<(string, seq<Value>)>): Row -> bool {
    r => Matches(r, filter)
  }

  function FilterColumns(filter: seq<(string, seq<Value>)>): (cs: seq<string>)
    ensures |cs| == |filter| && forall i :: 0 <= i < |filter| ==> cs[i] == filter[i].0
  {
    Map(filter, (f: (string, seq<Value>)) => f.0)
  }

  /** `upset_filter_df`: without a filter (None or empty) the table itself,
      otherwise the rows that match every filtered column, in order. A filtered
      column the table lacks raises KeyError. */
  function UpsetFilterDf(t: Table, filter: Option<seq<(string, seq<Value>)>>): (r: Result<Table, Failure>)
    ensures filter.None? || |filter.value| == 0 ==> r == Ok(t)
    ensures r.Err? <==> filter.Some? && FirstMissing(FilterColumns(filter.value), t.columns).Some?
    ensures r.Ok? ==> r.value.columns == t.columns && |r.value.rows| <= |t.rows|
    ensures r.Ok? && filter.Some? ==> forall row :: row in r.value.rows <==> row in t.rows && Matches(row, filter.value)
  {
    if filter.None? || |filter.value| == 0 then Ok(t)
    else
      match FirstMissing(FilterColumns(filter.value), t.columns)
      case Some(c) => Err(MissingColumn(c))
      case None =>
        FilterMembers(t.rows, MatchesAll(filter.value));
        Ok(Table(t.columns, Filter(t.rows, MatchesAll(filter.value))))
  }

  /** Filtering again with the same targets changes nothing. */
  lemma UpsetFilterIdempotent(t: Table, filter: Option<seq<(string, seq<Value>)>>)
    requires UpsetFilterDf(t, filter).Ok?
    ensures UpsetFilterDf(UpsetFilterDf(t, filter).value, filter) == UpsetFilterDf(t, filter)
  {
    if filter.Some? && |filter.value| > 0 {
      FilterTwice(t.rows, MatchesAll(filter.value));
    }
  }

  lemma {:induction false} FilterTwice<T>(xs: seq<T>, p: T -> bool)
    ensures Filter(Filter(xs, p), p) == Filter(xs, p)
  {
    if |xs| > 0 {
      FilterTwice(xs[1..], p);
    }
  }
}
