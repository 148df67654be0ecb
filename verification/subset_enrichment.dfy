/** The within-subset analysis (`calculate_enrichment_within_subset_fisher`): for
    every category of the chosen levels, the whole Fisher analysis is run again on
    that category's records alone, with the subsets ('Total #C', 'Ethers', ...)
    as its levels, and every term's group is renamed '<group> within <category>'.
    A category the query has no records of is compared with the universe's own
    records (the `except` branch). */
module SubsetEnrichment {
  import opened Wrappers
  import opened Seqs
  import opened Strings
  import opened Tables
  import opened Enrichment

  const TotalOxygen := "Total #O"
  const EthersSubset := "Ethers"
  const GroupColumn := "Term (Group)"

  predicate InBoth(c: string, query: Table, universe: Table) {
    c in query.columns && c in universe.columns
  }

  /** 'Total #O' and 'Ethers' are dropped from the subsets unless both tables carry them. */
  function UsableSubsets(subsets: seq<string>, query: Table, universe: Table): (r: seq<string>)
    ensures |r| <= |subsets|
    ensures forall x :: x in r <==>
      && x in subsets
      && (x == TotalOxygen ==> InBoth(TotalOxygen, query, universe))
      && (x == EthersSubset ==> InBoth(EthersSubset, query, universe))
  {
    var noOxygen := (x: string) => x != TotalOxygen;
    var noEthers := (x: string) => x != EthersSubset;
    FilterMembers(subsets, noOxygen);
    var a := if InBoth(TotalOxygen, query, universe) then subsets else Filter(subsets, noOxygen);
    FilterMembers(a, noEthers);
    if InBoth(EthersSubset, query, universe) then a else Filter(a, noEthers)
  }

  /** `groupby(level).get_group(c)`: the records of category `c`, with all columns. */
  function Group(t: Table, level: string, c: Value): (g: Table)
    ensures g.columns == t.columns
    ensures forall r :: r in g.rows <==> r in t.rows && Cell(r, level) == c
  {
    Table(t.columns, RowsWhere(t.rows, level, c))
  }

  /** The query side of a category: the query's own group, or, when the query has
      no record of the category, the universe's group (columns included). */
  function QueryGroup(query: Table, universe: Table, level: string, c: Value): (g: Table)
    ensures c in GroupKeys(query.rows, level) ==> g.columns == query.columns
    ensures c !in GroupKeys(query.rows, level) ==> g == Group(universe, level, c)
    ensures forall r :: r in g.rows ==> Cell(r, level) == c
  {
    if c in GroupKeys(query.rows, level) then Group(query, level, c) else Group(universe, level, c)
  }

  /** `str(x) + ' within ' + str(category)`. */
  function WithinText(x: Value, c: Value): Value {
    Str(ValueText(x) + " within " + ValueText(c))
  }

  function Within(t: Term, c: Value): Term {
    t.(test := t.test.(group := WithinText(t.test.group, c)))
  }

  /** Undoes the renaming of one category's groups: a text group ending in
      ' within <c>' loses that ending; anything else is left alone. */
  function StripWithin(v: Value, c: Value): (r: Value)
    ensures r.Str? <==> v.Str?
    ensures v.Str? ==> StartsWith(v.s, r.s)
  {
    var suffix := " within " + ValueText(c);
    if v.Str? && EndsWith(v.s, suffix) then
      assert v.s == v.s[..|v.s| - |suffix|] + suffix;
      Str(v.s[..|v.s| - |suffix|])
    else v
  }

  /** Renaming and stripping are inverse on text groups: the renamed term carries
      exactly the original group in front of ' within <c>', and nothing else changes. */
  lemma StripWithinInverse(t: Term, c: Value)
    requires t.test.group.Str?
    ensures StripWithin(Within(t, c).test.group, c) == t.test.group
    ensures Within(t, c).(test := Within(t, c).test.(group := t.test.group)) == t
  {
    var g := t.test.group.s;
    var suffix := " within " + ValueText(c);
    var w := g + suffix;
    assert Within(t, c).test.group == Str(w);
    assert w[|w| - |suffix|..] == suffix;
    assert w[..|w| - |suffix|] == g;
  }

  /** One category's terms: the analysis of its records with the subsets as levels,
      every group renamed. An analysis without any level to process returns a
      frame without columns, and renaming its missing group column raises KeyError. */
  function CategoryBlock(subsets: seq<string>, level: string, c: Value, query: Table, universe: Table, s: Settings): (r: Result<seq<Term>, Failure>)
    ensures r.Err? <==>
      Enrich(subsets, QueryGroup(query, universe, level, c), Group(universe, level, c), s).Err? ||
      Enrich(subsets, QueryGroup(query, universe, level, c), Group(universe, level, c), s).value.Columnless?
    ensures r.Ok? ==>
      var e := Enrich(subsets, QueryGroup(query, universe, level, c), Group(universe, level, c), s).value.terms;
      |r.value| == |e| && forall i :: 0 <= i < |e| ==> r.value[i] == Within(e[i], c)
    ensures Enrich(subsets, QueryGroup(query, universe, level, c), Group(universe, level, c), s) == Ok(Columnless) ==>
      r == Err(MissingColumn(GroupColumn))
  {
    var df :- Enrich(subsets, QueryGroup(query, universe, level, c), Group(universe, level, c), s);
    if df.Columnless? then Err(MissingColumn(GroupColumn))
    else Ok(Map(df.terms, (t: Term) => Within(t, c)))
  }

  /** `t` is a term of the analysis of category `c` at `level`, renamed. */
  predicate FromCategory(t: Term, subsets: seq<string>, level: string, c: Value, query: Table, universe: Table, s: Settings) {
    var e := Enrich(subsets, QueryGroup(query, universe, level, c), Group(universe, level, c), s);
    e.Ok? && exists k :: 0 <= k < |RowsOf(e.value)| && t == Within(RowsOf(e.value)[k], c)
  }

  function CategoryRel(subsets: seq<string>, query: Table, universe: Table, s: Settings): (Term, string, Value) -> bool {
    (t: Term, level: string, c: Value) => FromCategory(t, subsets, level, c, query, universe, s)
  }

  predicate InCategories(R: (Term, string, Value) -> bool, t: Term, level: string, cats: seq<Value>) {
    exists k :: 0 <= k < |cats| && R(t, level, cats[k])
  }

  lemma CategoryBlockFrom(subsets: seq<string>, level: string, c: Value, query: Table, universe: Table, s: Settings)
    requires CategoryBlock(subsets, level, c, query, universe, s).Ok?
    ensures forall t :: t in CategoryBlock(subsets, level, c, query, universe, s).value ==>
      CategoryRel(subsets, query, universe, s)(t, level, c)
  {
    var b := CategoryBlock(subsets, level, c, query, universe, s).value;
    var e := Enrich(subsets, QueryGroup(query, universe, level, c), Group(universe, level, c), s).value;
    forall t | t in b
      ensures FromCategory(t, subsets, level, c, query, universe, s)
    {
      var k :| 0 <= k < |b| && b[k] == t;
      assert t == Within(RowsOf(e)[k], c);
    }
  }

  /** The block of each category of `level`. */
  function CategoryBlockOf(subsets: seq<string>, level: string, query: Table, universe: Table, s: Settings): Value -> Result<seq<Term>, Failure> {
    c => CategoryBlock(subsets, level, c, query, universe, s)
  }

  /** The categories of one level, in order, their blocks concatenated. */
  function CategoryBlocks(subsets: seq<string>, level: string, cats: seq<Value>, query: Table, universe: Table, s: Settings): (r: Result<Frame, Failure>)
    ensures r.Ok? ==> (r.value.Columnless? <==> |cats| == 0)
    ensures r.Ok? ==> forall t :: t in RowsOf(r.value) ==>
      InCategories(CategoryRel(subsets, query, universe, s), t, level, cats)
    ensures r.Ok? ==> BlocksIn(cats, AnyKey(), CategoryBlockOf(subsets, level, query, universe, s), RowsOf(r.value))
    decreases |cats|
  {
    if |cats| == 0 then Ok(Columnless)
    else
      var block :- CategoryBlock(subsets, level, cats[0], query, universe, s);
      var rest :- CategoryBlocks(subsets, level, cats[1..], query, universe, s);
      CategoryBlockFrom(subsets, level, cats[0], query, universe, s);
      CategoriesStep(CategoryRel(subsets, query, universe, s), level, cats, block, RowsOf(rest));
      BlocksStep(cats, AnyKey(), CategoryBlockOf(subsets, level, query, universe, s), block, RowsOf(rest));
      Ok(Prepend(block, rest))
  }

  lemma CategoriesStep(R: (Term, string, Value) -> bool, level: string, cats: seq<Value>, block: seq<Term>, rest: seq<Term>)
    requires |cats| > 0
    requires forall t :: t in block ==> R(t, level, cats[0])
    requires forall t :: t in rest ==> InCategories(R, t, level, cats[1..])
    ensures forall t :: t in block + rest ==> InCategories(R, t, level, cats)
  {
    forall t | t in block + rest
      ensures InCategories(R, t, level, cats)
    {
      if t !in block {
        var k :| 0 <= k < |cats[1..]| && R(t, level, cats[1..][k]);
        assert cats[1..][k] == cats[k + 1];
      }
    }
  }

  /** `t` comes from some category of some level. */
  predicate InLevels(R: (Term, string, Value) -> bool, t: Term, levels: seq<string>, universe: Table) {
    exists j :: 0 <= j < |levels| && InCategories(R, t, levels[j], Candidates(universe.rows, levels[j]))
  }

  /** The levels in order; grouping by a level one of the tables lacks raises
      KeyError (the universe is grouped first). */
  function WithinLevels(levels: seq<string>, subsets: seq<string>, query: Table, universe: Table, s: Settings): (r: Result<Frame, Failure>)
    ensures |levels| > 0 && (levels[0] !in universe.columns || levels[0] !in query.columns) ==> r == Err(MissingColumn(levels[0]))
    ensures r.Ok? ==> forall t :: t in RowsOf(r.value) ==> InLevels(CategoryRel(subsets, query, universe, s), t, levels, universe)
    ensures r.Ok? ==> BlocksIn(levels, AnyKey(), LevelBlockOf(subsets, query, universe, s), RowsOf(r.value))
    decreases |levels|
  {
    if |levels| == 0 then Ok(Columnless)
    else if levels[0] !in universe.columns || levels[0] !in query.columns then Err(MissingColumn(levels[0]))
    else
      var head :- CategoryBlocks(subsets, levels[0], Candidates(universe.rows, levels[0]), query, universe, s);
      var rest :- WithinLevels(levels[1..], subsets, query, universe, s);
      LevelsStep(CategoryRel(subsets, query, universe, s), levels, universe, RowsOf(head), RowsOf(rest));
      BlocksStep(levels, AnyKey(), LevelBlockOf(subsets, query, universe, s), RowsOf(head), RowsOf(rest));
      Ok(if head.Columnless? && rest.Columnless? then Columnless else Terms(RowsOf(head) + RowsOf(rest)))
  }

  /** The terms of one level: the blocks of all the universe's categories of it. */
  function LevelBlockOf(subsets: seq<string>, query: Table, universe: Table, s: Settings): string -> Result<seq<Term>, Failure> {
    level =>
      var f := CategoryBlocks(subsets, level, Candidates(universe.rows, level), query, universe, s);
      if f.Err? then Err(f.error) else Ok(RowsOf(f.value))
  }

  /** Every term of the analysis of every category the universe has at a level
      appears in the result, renamed within its category. */
  lemma WithinLevelsComplete(levels: seq<string>, subsets: seq<string>, query: Table, universe: Table, s: Settings,
                             j: nat, c: Value, x: Term)
    requires WithinLevels(levels, subsets, query, universe, s).Ok?
    requires j < |levels| && c in Candidates(universe.rows, levels[j])
    requires Enrich(subsets, QueryGroup(query, universe, levels[j], c), Group(universe, levels[j], c), s).Ok?
    requires x in RowsOf(Enrich(subsets, QueryGroup(query, universe, levels[j], c), Group(universe, levels[j], c), s).value)
    ensures Within(x, c) in RowsOf(WithinLevels(levels, subsets, query, universe, s).value)
  {
    var level := levels[j];
    var cats := Candidates(universe.rows, level);
    LevelRowsIn(levels, subsets, query, universe, s, RowsOf(WithinLevels(levels, subsets, query, universe, s).value), j);
    CategoryRowsIn(subsets, level, cats, query, universe, s, c);
    CategoryBlockHas(subsets, level, c, query, universe, s, x);
  }

  /** What `BlocksIn` says of level `j`: its categories' blocks succeeded and are kept. */
  lemma LevelRowsIn(levels: seq<string>, subsets: seq<string>, query: Table, universe: Table, s: Settings, terms: seq<Term>, j: nat)
    requires BlocksIn(levels, AnyKey(), LevelBlockOf(subsets, query, universe, s), terms) && j < |levels|
    ensures CategoryBlocks(subsets, levels[j], Candidates(universe.rows, levels[j]), query, universe, s).Ok?
    ensures forall t :: t in RowsOf(CategoryBlocks(subsets, levels[j], Candidates(universe.rows, levels[j]), query, universe, s).value) ==> t in terms
  {
    assert BlockIn(LevelBlockOf(subsets, query, universe, s)(levels[j]), terms);
  }

  /** The block of a category among `cats` is kept by the level's blocks. */
  lemma CategoryRowsIn(subsets: seq<string>, level: string, cats: seq<Value>, query: Table, universe: Table, s: Settings, c: Value)
    requires CategoryBlocks(subsets, level, cats, query, universe, s).Ok? && c in cats
    ensures CategoryBlock(subsets, level, c, query, universe, s).Ok?
    ensures forall t :: t in CategoryBlock(subsets, level, c, query, universe, s).value ==> t in RowsOf(CategoryBlocks(subsets, level, cats, query, universe, s).value)
  {
    var k :| 0 <= k < |cats| && cats[k] == c;
    assert BlockIn(CategoryBlockOf(subsets, level, query, universe, s)(cats[k]), RowsOf(CategoryBlocks(subsets, level, cats, query, universe, s).value));
  }

  /** Every term of a category's analysis is in its block, renamed. */
  lemma CategoryBlockHas(subsets: seq<string>, level: string, c: Value, query: Table, universe: Table, s: Settings, x: Term)
    requires CategoryBlock(subsets, level, c, query, universe, s).Ok?
    requires Enrich(subsets, QueryGroup(query, universe, level, c), Group(universe, level, c), s).Ok?
    requires x in RowsOf(Enrich(subsets, QueryGroup(query, universe, level, c), Group(universe, level, c), s).value)
    ensures Within(x, c) in CategoryBlock(subsets, level, c, query, universe, s).value
  {
    var e := RowsOf(Enrich(subsets, QueryGroup(query, universe, level, c), Group(universe, level, c), s).value);
    var i :| 0 <= i < |e| && e[i] == x;
    assert CategoryBlock(subsets, level, c, query, universe, s).value[i] == Within(x, c);
  }

  lemma LevelsStep(R: (Term, string, Value) -> bool, levels: seq<string>, universe: Table, head: seq<Term>, rest: seq<Term>)
    requires |levels| > 0
    requires forall t :: t in head ==> InCategories(R, t, levels[0], Candidates(universe.rows, levels[0]))
    requires forall t :: t in rest ==> InLevels(R, t, levels[1..], universe)
    ensures forall t :: t in head + rest ==> InLevels(R, t, levels, universe)
  {
    forall t | t in head + rest
      ensures InLevels(R, t, levels, universe)
    {
      if t !in head {
        var j :| 0 <= j < |levels[1..]| && InCategories(R, t, levels[1..][j], Candidates(universe.rows, levels[1..][j]));
        assert levels[1..][j] == levels[j + 1];
      }
    }
  }

  /** `calculate_enrichment_within_subset_fisher`: every term is a renamed term of
      the analysis of one category's records, for a category the universe has at
      one of the levels. */
  function WithinSubset(levels: seq<string>, subsets: seq<string>, query: Table, universe: Table, s: Settings): (r: Result<Frame, Failure>)
    ensures |levels| > 0 && (levels[0] !in universe.columns || levels[0] !in query.columns) ==> r == Err(MissingColumn(levels[0]))
    ensures r.Ok? ==> forall t :: t in RowsOf(r.value) ==>
      InLevels(CategoryRel(UsableSubsets(subsets, query, universe), query, universe, s), t, levels, universe)
  {
    WithinLevels(levels, UsableSubsets(subsets, query, universe), query, universe, s)
  }

  /** The result keeps the terms of every level, on the usable subsets. */
  lemma WithinSubsetBlocksIn(levels: seq<string>, subsets: seq<string>, query: Table, universe: Table, s: Settings)
    requires WithinSubset(levels, subsets, query, universe, s).Ok?
    ensures BlocksIn(levels, AnyKey(), LevelBlockOf(UsableSubsets(subsets, query, universe), query, universe, s),
                     RowsOf(WithinSubset(levels, subsets, query, universe, s).value))
  {
  }

  /** Every term of the analysis (on the usable subsets) of every category the
      universe has at a level appears in the result, renamed within its category. */
  lemma WithinSubsetComplete(levels: seq<string>, subsets: seq<string>, query: Table, universe: Table, s: Settings,
                             j: nat, c: Value, x: Term)
    requires WithinSubset(levels, subsets, query, universe, s).Ok?
    requires j < |levels| && c in Candidates(universe.rows, levels[j])
    requires Enrich(UsableSubsets(subsets, query, universe), QueryGroup(query, universe, levels[j], c), Group(universe, levels[j], c), s).Ok?
    requires x in RowsOf(Enrich(UsableSubsets(subsets, query, universe), QueryGroup(query, universe, levels[j], c), Group(universe, levels[j], c), s).value)
    ensures Within(x, c) in RowsOf(WithinSubset(levels, subsets, query, universe, s).value)
  {
    WithinLevelsComplete(levels, UsableSubsets(subsets, query, universe), query, universe, s, j, c, x);
  }

  /** A category the query has no record of is compared with itself: in every
      term drawn from it (for subsets other than 'Acyls') the query count and
      total equal the reference count and total. */
  lemma FallbackMirrors(subsets: seq<string>, level: string, c: Value, query: Table, universe: Table, s: Settings, t: Term)
    requires AcylsLevel !in subsets
    requires c !in GroupKeys(query.rows, level)
    requires FromCategory(t, subsets, level, c, query, universe, s)
    ensures t.test.noQuery == t.test.noReference
  {
    var g := Group(universe, level, c);
    assert QueryGroup(query, universe, level, c) == g;
    MirroredTerms(subsets, g, s);
    MirrorThrough(t, c, RowsOf(Enrich(subsets, g, g, s).value));
  }

  lemma MirrorThrough(t: Term, c: Value, es: seq<Term>)
    requires forall x :: x in es ==> x.test.noQuery == x.test.noReference
    requires exists k :: 0 <= k < |es| && t == Within(es[k], c)
    ensures t.test.noQuery == t.test.noReference
  {
    var k :| 0 <= k < |es| && t == Within(es[k], c);
    assert es[k] in es;
  }

  /** The analysis of a table against itself reports equal query and reference
      counts in every term. */
  lemma MirroredTerms(subsets: seq<string>, g: Table, s: Settings)
    requires AcylsLevel !in subsets
    requires Enrich(subsets, g, g, s).Ok?
    ensures forall x :: x in RowsOf(Enrich(subsets, g, g, s).value) ==> x.test.noQuery == x.test.noReference
  {
    var p := Prepare(g).value;
    forall x | x in RowsOf(Enrich(subsets, g, g, s).value)
      ensures x.test.noQuery == x.test.noReference
    {
      assert PlainTerm(x, p, p, s);
      MirroredOutcome(x.test, p.rows, x.test.group.s, s);
    }
  }

  lemma MirroredOutcome(x: Test, rows: seq<Row>, level: string, s: Settings)
    requires PlainOutcome(x, rows, rows, level, s)
    ensures x.noQuery == x.noReference
  {
  }
}
