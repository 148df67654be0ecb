/** The contingency builder of the Fisher analyses (`calculate_enrichment_fisher`).
    Records are grouped by a classification column; for every category of the
    reference (universe) table the query and universe members are counted, the
    strict `> filter_count` guard decides whether the category is tested, and a
    2x2 table goes to the test. Each level's block is sorted by p-value and
    corrected for multiple testing. The acyl analysis repeats this on a ladder of
    structural levels. The test itself and the correction are oracles. */
module Enrichment {
  import opened Wrappers
  import opened Seqs
  import opened Strings
  import opened Tables
  import opened Correction

  const UndefinedCategory := "Undefined lipid category [UNDEFINED]"
  const AcylsLevel := "Acyls"
  const ZeroChain := "0:0"

  /** The acyl ladder: the rungs of structural detail, coarsest first. */
  const Ladder: seq<string> := ["MOLECULAR_SPECIES", "SN_POSITION", "STRUCTURE_DEFINED", "FULL_STRUCTURE", "COMPLETE_STRUCTURE"]

  datatype OddsRatio = Finite(x: real) | Infinite | NotANumber

  /** The 'Odds Ratio' cell: the ratio, or the text 'N.D.'. */
  datatype OddsCell = Reported(ratio: OddsRatio) | NotDetermined

  /** The 2x2 table [[a, b], [c, d]] handed to the test. */
  datatype Contingency = Contingency(a: int, b: int, c: int, d: int)

  /** The oracle for scipy `fisher_exact(table, alternative)`: odds ratio and p-value. */
  type Fisher = (Contingency, string) -> (OddsRatio, Probability)

  /** The settings every analysis passes down unchanged. */
  datatype Settings = Settings(
    alternative: string, how: string, alpha: real, filterCount: nat,
    fisher: Fisher, mt: MultipleTests)

  /** A "part/whole" cell such as 'No Query'. */
  datatype Fraction = Fraction(part: nat, whole: nat)

  /** The extra columns of the acyl analysis. `queryMissing` is 'Missing Query Val':
      true when the counted rows are fewer than all rows of the category. */
  datatype MissingInfo = MissingInfo(query: Fraction, reference: Fraction, queryMissing: bool, referenceMissing: bool)

  /** One tested category, before correction. */
  datatype Test = Test(
    group: Value, classifier: Value, level: string,
    noQuery: Fraction, noReference: Fraction,
    p: Probability, odds: OddsCell, missing: Option<MissingInfo>)

  /** One result row: a test with its corrected p-value ('FDR') and its
      'Hypothesis Correction Result'. */
  datatype Term = Term(test: Test, fdr: Probability, rejected: bool)

  /** A result DataFrame: `pd.DataFrame()` without columns, or rows of terms. */
  datatype Frame = Columnless | Terms(terms: seq<Term>)

  function RowsOf(f: Frame): seq<Term> {
    if f.Terms? then f.terms else []
  }

  /** `pd.concat([df, rest])` with `df` a block of terms. */
  function Prepend(block: seq<Term>, rest: Frame): Frame {
    Terms(block + RowsOf(rest))
  }

  function TestOf(t: Term): Test {
    t.test
  }

  // ---------------------------------------------------------------- preparation

  predicate Defined(r: Row) {
    Cell(r, CategoryColumn) != Str(UndefinedCategory)
  }

  /** Rows of the undefined category are dropped; a table without the category
      column raises KeyError. */
  function RemoveUndefined(t: Table): (r: Result<Table, Failure>)
    ensures r.Err? <==> CategoryColumn !in t.columns
    ensures r.Err? ==> r.error == MissingColumn(CategoryColumn)
    ensures r.Ok? ==> r.value.columns == t.columns
    ensures r.Ok? ==> forall i :: 0 <= i < |r.value.rows| ==> Defined(r.value.rows[i])
    ensures r.Ok? ==> forall row :: row in r.value.rows <==> row in t.rows && Defined(row)
  {
    if CategoryColumn !in t.columns then Err(MissingColumn(CategoryColumn))
    else
      FilterMembers(t.rows, Defined);
      Ok(Table(t.columns, Filter(t.rows, Defined)))
  }

  function ClearCell(v: Value): Value {
    if v == Str(ZeroChain) then Missing else v
  }

  /** `replace('0:0', np.nan)` on one row: an acyl without carbons becomes missing. */
  function ClearRow(r: Row): (r': Row)
    ensures r'.Keys == r.Keys
    ensures forall k :: k in r' ==> r'[k] != Str(ZeroChain)
    ensures forall k :: k in r && r[k] != Str(ZeroChain) ==> r'[k] == r[k]
    ensures forall k :: k in r && r[k] == Str(ZeroChain) ==> r'[k] == Missing
  {
    map k | k in r :: ClearCell(r[k])
  }

  function ClearZeroChains(t: Table): (r: Table)
    ensures r.columns == t.columns && |r.rows| == |t.rows|
    ensures forall i :: 0 <= i < |t.rows| ==> r.rows[i] == ClearRow(t.rows[i])
  {
    Table(t.columns, Map(t.rows, ClearRow))
  }

  /** Both steps that precede the counting: the undefined category goes, then '0:0' cells. */
  function Prepare(t: Table): (r: Result<Table, Failure>)
    ensures r.Err? <==> CategoryColumn !in t.columns
    ensures r.Err? ==> r.error == MissingColumn(CategoryColumn)
    ensures r.Ok? ==> r.value.columns == t.columns
  {
    var d :- RemoveUndefined(t);
    Ok(ClearZeroChains(d))
  }

  /** After preparation no row is of the undefined category and no cell is '0:0'. */
  lemma PreparedClean(t: Table)
    requires Prepare(t).Ok?
    ensures forall i :: 0 <= i < |Prepare(t).value.rows| ==> Defined(Prepare(t).value.rows[i])
    ensures forall i, k :: 0 <= i < |Prepare(t).value.rows| && k in Prepare(t).value.rows[i] ==>
      Prepare(t).value.rows[i][k] != Str(ZeroChain)
  {
    var d := RemoveUndefined(t).value;
    var p := Prepare(t).value;
    assert p == ClearZeroChains(d);
    forall i | 0 <= i < |p.rows|
      ensures Defined(p.rows[i])
    {
      var r := d.rows[i];
      assert p.rows[i] == ClearRow(r);
      assert Defined(r);
      if CategoryColumn in r {
        if r[CategoryColumn] == Str(ZeroChain) {
          assert p.rows[i][CategoryColumn] == Missing;
        } else {
          assert p.rows[i][CategoryColumn] == r[CategoryColumn];
        }
      }
    }
  }

  // ------------------------------------------------------------------- counting

  /** The size of one `groupby(level)` group as the pipeline counts it: the non-null
      'Normalized Name' cells among the rows whose `level` cell is `c`. */
  function GroupCount(rows: seq<Row>, level: string, c: Value): nat {
    NonNullCount(RowsWhere(rows, level, c), NormalizedName)
  }

  /** A category the query has no group for counts zero query members (the `except` branch). */
  lemma QueryLacksCategory(query: seq<Row>, level: string, c: Value)
    requires c != Missing && c !in GroupKeys(query, level)
    ensures GroupCount(query, level, c) == 0
  {
    forall i | 0 <= i < |query|
      ensures Cell(query[i], level) != c
    {
      assert Column(query, level)[i] == Cell(query[i], level);
    }
    RowsWhereNone(query, level, c);
  }

  /** Candidate categories: the universe group keys other than the texts 'nan' and 'None'. */
  predicate Candidate(c: Value) {
    c != Str("nan") && c != Str("None")
  }

  function Candidates(universe: seq<Row>, level: string): (cs: seq<Value>)
    ensures Distinct(cs)
    ensures forall c :: c in cs <==> c in GroupKeys(universe, level) && Candidate(c)
  {
    FilterDistinct(GroupKeys(universe, level), Candidate);
    FilterMembers(GroupKeys(universe, level), Candidate);
    Filter(GroupKeys(universe, level), Candidate)
  }

  /** The guard of the test: both counts strictly above the threshold. */
  predicate Passes(query: seq<Row>, universe: seq<Row>, level: string, c: Value, filterCount: nat) {
    GroupCount(query, level, c) > filterCount && GroupCount(universe, level, c) > filterCount
  }

  /** The categories that reach the test, in universe group order. */
  function Tested(query: seq<Row>, universe: seq<Row>, level: string, filterCount: nat): (cs: seq<Value>)
    ensures Distinct(cs)
    ensures forall c :: c in cs <==>
      c in GroupKeys(universe, level) && Candidate(c) && Passes(query, universe, level, c, filterCount)
  {
    var all := Candidates(universe, level);
    var passes := c => Passes(query, universe, level, c, filterCount);
    FilterDistinct(all, passes);
    FilterMembers(all, passes);
    Filter(all, passes)
  }

  /** A category that only the query has is never tested. */
  lemma QueryOnlyNeverTested(query: seq<Row>, universe: seq<Row>, level: string, filterCount: nat, c: Value)
    requires c in GroupKeys(query, level) && c !in GroupKeys(universe, level)
    ensures c !in Tested(query, universe, level, filterCount)
    ensures GroupCount(universe, level, c) == 0
  {
    QueryLacksCategory(universe, level, c);
  }

  /** The four numbers of one test: the category's members in query and universe,
      and the name totals they are set against. */
  datatype Counts = Counts(q: nat, u: nat, qTotal: nat, uTotal: nat)

  /** Counts of category `c` at `level` among `query` and `universe`, against the
      non-null names of the whole tables `wholeQuery` and `wholeUniverse`. */
  function Tally(query: seq<Row>, universe: seq<Row>, level: string, c: Value, wholeQuery: seq<Row>, wholeUniverse: seq<Row>): Counts {
    Counts(GroupCount(query, level, c), GroupCount(universe, level, c),
      NonNullCount(wholeQuery, NormalizedName), NonNullCount(wholeUniverse, NormalizedName))
  }

  /** The table [[q, u], [Q - q, U - u]]. */
  function ContingencyOf(n: Counts): Contingency {
    Contingency(n.q, n.u, n.qTotal as int - n.q as int, n.uTotal as int - n.u as int)
  }

  /** The contingency table a test reports in its 'No Query' and 'No Reference' cells. */
  function TableOf(t: Test): Contingency {
    ContingencyOf(Counts(t.noQuery.part, t.noReference.part, t.noQuery.whole, t.noReference.whole))
  }

  predicate Reports(t: Test, n: Counts) {
    t.noQuery == Fraction(n.q, n.qTotal) && t.noReference == Fraction(n.u, n.uTotal)
  }

  predicate NonNegative(k: Contingency) {
    k.a >= 0 && k.b >= 0 && k.c >= 0 && k.d >= 0
  }

  /** `t` carries the outcome of the test of its own contingency table. */
  predicate FromFisher(t: Test, s: Settings) {
    t.p == s.fisher(TableOf(t), s.alternative).1
  }

  lemma GroupCountCons(h: Row, rest: seq<Row>, level: string, c: Value)
    ensures GroupCount([h] + rest, level, c) ==
      GroupCount(rest, level, c) + (if Cell(h, level) == c && Cell(h, NormalizedName) != Missing then 1 else 0)
    ensures |RowsWhere([h] + rest, level, c)| == |RowsWhere(rest, level, c)| + (if Cell(h, level) == c then 1 else 0)
  {
    var rows := [h] + rest;
    assert rows[1..] == rest;
    var w := RowsWhere(rows, level, c);
    var w' := RowsWhere(rest, level, c);
    if Cell(h, level) == c {
      assert w == [h] + w';
      assert w[1..] == w';
    } else {
      assert w == w';
    }
  }

  lemma AtLevelsCons(h: Row, rest: seq<Row>, opts: seq<string>)
    ensures AtLevels([h] + rest, opts) == if AtLevel(h, opts) then [h] + AtLevels(rest, opts) else AtLevels(rest, opts)
  {
    assert ([h] + rest)[1..] == rest;
  }

  /** Restricting the rows to some rungs never raises a category's count, and a
      category's count never exceeds its rows. */
  lemma {:induction false} AtLevelsCountBounded(rows: seq<Row>, opts: seq<string>, level: string, c: Value)
    ensures GroupCount(AtLevels(rows, opts), level, c) <= GroupCount(rows, level, c)
    ensures GroupCount(rows, level, c) <= |RowsWhere(rows, level, c)|
  {
    if |rows| > 0 {
      var h := rows[0];
      var rest := rows[1..];
      assert rows == [h] + rest;
      AtLevelsCountBounded(rest, opts, level, c);
      GroupCountCons(h, rest, level, c);
      AtLevelsCons(h, rest, opts);
      if AtLevel(h, opts) {
        GroupCountCons(h, AtLevels(rest, opts), level, c);
      }
    }
  }

  /** Each row of category `c` is on one of the rungs and has a name. */
  predicate Complete(rows: seq<Row>, opts: seq<string>, level: string, c: Value) {
    forall i :: 0 <= i < |rows| && Cell(rows[i], level) == c ==>
      AtLevel(rows[i], opts) && Cell(rows[i], NormalizedName) != Missing
  }

  lemma CompleteCons(h: Row, rest: seq<Row>, opts: seq<string>, level: string, c: Value)
    ensures Complete([h] + rest, opts, level, c) <==>
      (Cell(h, level) == c ==> AtLevel(h, opts) && Cell(h, NormalizedName) != Missing) && Complete(rest, opts, level, c)
  {
    var rows := [h] + rest;
    if Complete(rest, opts, level, c) && (Cell(h, level) == c ==> AtLevel(h, opts) && Cell(h, NormalizedName) != Missing) {
      forall i | 0 <= i < |rows| && Cell(rows[i], level) == c
        ensures AtLevel(rows[i], opts) && Cell(rows[i], NormalizedName) != Missing
      {
        if i > 0 {
          assert rows[i] == rest[i - 1];
        }
      }
    }
    if Complete(rows, opts, level, c) {
      forall i | 0 <= i < |rest| && Cell(rest[i], level) == c
        ensures AtLevel(rest[i], opts) && Cell(rest[i], NormalizedName) != Missing
      {
        assert rows[i + 1] == rest[i];
      }
      assert rows[0] == h;
    }
  }

  /** How the filtered count and the row count of category `c` grow by one row. */
  lemma CountsCons(h: Row, rest: seq<Row>, opts: seq<string>, level: string, c: Value)
    ensures GroupCount(AtLevels([h] + rest, opts), level, c) ==
      GroupCount(AtLevels(rest, opts), level, c) + (if Cell(h, level) == c && AtLevel(h, opts) && Cell(h, NormalizedName) != Missing then 1 else 0)
    ensures |RowsWhere([h] + rest, level, c)| == |RowsWhere(rest, level, c)| + (if Cell(h, level) == c then 1 else 0)
  {
    GroupCountCons(h, rest, level, c);
    AtLevelsCons(h, rest, opts);
    if AtLevel(h, opts) {
      GroupCountCons(h, AtLevels(rest, opts), level, c);
    }
  }

  /** A category's count after the rung filter equals the number of its rows exactly
      when each of its rows is on one of the rungs and has a name. This is what the
      'Missing ... Val' flags report. */
  lemma {:induction false} CompleteIff(rows: seq<Row>, opts: seq<string>, level: string, c: Value)
    ensures GroupCount(AtLevels(rows, opts), level, c) == |RowsWhere(rows, level, c)| <==> Complete(rows, opts, level, c)
  {
    if |rows| > 0 {
      var h := rows[0];
      var rest := rows[1..];
      assert rows == [h] + rest;
      CompleteIff(rest, opts, level, c);
      AtLevelsCountBounded(rest, opts, level, c);
      CountsCons(h, rest, opts, level, c);
      CompleteCons(h, rest, opts, level, c);
    }
  }

  /** A group never counts more names than the whole table has. */
  lemma {:induction false} GroupCountBounded(rows: seq<Row>, level: string, c: Value)
    ensures GroupCount(rows, level, c) <= NonNullCount(rows, NormalizedName)
  {
    if |rows| > 0 {
      var h := rows[0];
      var rest := rows[1..];
      assert rows == [h] + rest;
      GroupCountBounded(rest, level, c);
      GroupCountCons(h, rest, level, c);
      assert NonNullCount(rows, NormalizedName) ==
        NonNullCount(rest, NormalizedName) + (if Cell(h, NormalizedName) != Missing then 1 else 0);
    }
  }

  /** Counts taken over the whole tables, or over their rows on some rungs, give a
      contingency table without negative entries. */
  lemma TallyNonNegative(query: seq<Row>, universe: seq<Row>, opts: seq<string>, level: string, c: Value)
    ensures NonNegative(ContingencyOf(Tally(query, universe, level, c, query, universe)))
    ensures NonNegative(ContingencyOf(Tally(AtLevels(query, opts), AtLevels(universe, opts), level, c, query, universe)))
  {
    GroupCountBounded(query, level, c);
    GroupCountBounded(universe, level, c);
    AtLevelsCountBounded(query, opts, level, c);
    AtLevelsCountBounded(universe, opts, level, c);
  }

  // -------------------------------------------------------------- level labels

  /** One rule of the plain analysis: when it applies to the level name, it
      appends its label. */
  datatype LabelRule = LabelRule(applies: string -> bool, tag: string)

  /** The label rules of the plain analysis, in their order. */
  const LabelRules: seq<LabelRule> := [
    LabelRule(l => l == CategoryColumn, "CATEGORY"),
    LabelRule(l => l == ClassColumn, "CLASS"),
    LabelRule(l => StartsWith(l, "Total"), "SPECIES"),
    LabelRule(l => Contains(l, "SN Position"), "SN_POSITION"),
    LabelRule(l => Contains(l, "Position Numbers"), "STRUCTURE_DEFINED"),
    LabelRule(l => Contains(l, "Position Geometries"), "FULL_STRUCTURE"),
    LabelRule(l => Contains(l, "DB Positions"), "FULL_STRUCTURE"),
    LabelRule(l => StartsWith(l, "FA") && !StructuralSuffix(l), "MOLECULAR_SPECIES")]

  /** The labels of the rules that apply to `level`, in rule order. */
  function LabelsFrom(rules: seq<LabelRule>, level: string): (labels: seq<string>)
    ensures |labels| <= |rules|
  {
    if |rules| == 0 then []
    else (if rules[0].applies(level) then [rules[0].tag] else []) + LabelsFrom(rules[1..], level)
  }

  lemma {:induction false} LabelsFromMembers(rules: seq<LabelRule>, level: string)
    ensures forall tag :: tag in LabelsFrom(rules, level) <==>
      exists k :: 0 <= k < |rules| && rules[k].applies(level) && rules[k].tag == tag
  {
    if |rules| > 0 {
      LabelsFromMembers(rules[1..], level);
      forall tag | (exists k :: 0 <= k < |rules| && rules[k].applies(level) && rules[k].tag == tag)
        ensures tag in LabelsFrom(rules, level)
      {
        var k :| 0 <= k < |rules| && rules[k].applies(level) && rules[k].tag == tag;
        if k > 0 {
          assert rules[1..][k - 1] == rules[k];
        }
      }
      forall tag | tag in LabelsFrom(rules[1..], level)
        ensures exists k :: 0 <= k < |rules| && rules[k].applies(level) && rules[k].tag == tag
      {
        var k :| 0 <= k < |rules[1..]| && rules[1..][k].applies(level) && rules[1..][k].tag == tag;
        assert rules[k + 1] == rules[1..][k];
      }
    }
  }

  /** The labels a level gets: one per matching rule, in rule order. */
  function LevelLabels(level: string): (labels: seq<string>)
    ensures forall tag :: tag in labels <==>
      exists k :: 0 <= k < |LabelRules| && LabelRules[k].applies(level) && LabelRules[k].tag == tag
  {
    LabelsFromMembers(LabelRules, level);
    LabelsFrom(LabelRules, level)
  }

  predicate StructuralSuffix(level: string) {
    EndsWith(level, "SN Position") || EndsWith(level, "Position Numbers")
    || EndsWith(level, "Position Geometries") || EndsWith(level, "DB Positions")
  }

  /** The label list of one level's block: it grows by the level's labels once per
      tested category, and the rows are zipped against it. */
  function LabelStream(labels: seq<string>, n: nat): (r: seq<string>)
    ensures |r| == n * |labels|
    ensures forall i :: 0 <= i < |r| ==> r[i] in labels
  {
    if n == 0 then [] else LabelStream(labels, n - 1) + labels
  }

  /** Row `i` of a block is labelled with label `i mod k` of the level's `k` labels. */
  lemma {:induction false} LabelStreamCycles(labels: seq<string>, n: nat, i: nat)
    requires |labels| > 0 && i < n * |labels|
    ensures LabelStream(labels, n)[i] == labels[i % |labels|]
  {
    var k := |labels|;
    var prev := (n - 1) * k;
    assert n * k == prev + k;
    if i < prev {
      LabelStreamCycles(labels, n - 1, i);
    } else {
      var j := i - prev;
      assert (prev + j) % k == j by {
        assert prev == (n - 1) * k;
        ModOfMultiplePlus(n - 1, k, j);
      }
    }
  }

  lemma {:induction false} MulBounds(d: int, k: int)
    requires k > 0
    ensures d >= 1 ==> d * k >= k
    ensures d <= -1 ==> d * k <= -k
    decreases if d < 0 then -d else d
  {
    if d > 1 {
      MulBounds(d - 1, k);
      assert d * k == (d - 1) * k + k;
    } else if d < -1 {
      MulBounds(d + 1, k);
      assert d * k == (d + 1) * k - k;
    }
  }

  /** The remainder is the only `b` below `k` with `y == a * k + b`. */
  lemma ModUnique(y: int, a: int, b: int, k: int)
    requires k > 0 && 0 <= b < k && y == a * k + b
    ensures y % k == b
  {
    var a', b' := y / k, y % k;
    assert y == a' * k + b';
    MulBounds(a - a', k);
    assert (a - a') * k == a * k - a' * k;
  }

  lemma ModOfMultiplePlus(m: nat, k: nat, j: nat)
    requires 0 <= j < k
    ensures (m * k + j) % k == j
  {
    ModUnique(m * k + j, m, j, k);
  }

  // -------------------------------------------------------------- plain analysis

  /** The odds ratio as the plain analysis stores it: its text 'nan' becomes 'N.D.'. */
  function OddsText(o: OddsRatio): OddsCell {
    if o.NotANumber? then NotDetermined else Reported(o)
  }

  function PlainTest(level: string, c: Value, tag: string, n: Counts, s: Settings): Test {
    var res := s.fisher(ContingencyOf(n), s.alternative);
    Test(Str(level), c, tag, Fraction(n.q, n.qTotal), Fraction(n.u, n.uTotal), res.1, OddsText(res.0), None)
  }

  /** What every test of the plain analysis at `level` is: a tested category with
      one of the level's labels, its counts against the whole tables, and the
      test's outcome on them. */
  predicate PlainTestOf(t: Test, query: seq<Row>, universe: seq<Row>, level: string, s: Settings) {
    && t.classifier in Tested(query, universe, level, s.filterCount)
    && t.level in LevelLabels(level)
    && PlainOutcome(t, query, universe, level, s)
  }

  /** The counts of the test's category against the whole tables, and the outcome of
      the test on them. */
  predicate PlainOutcome(t: Test, query: seq<Row>, universe: seq<Row>, level: string, s: Settings) {
    && t.group == Str(level)
    && Reports(t, Tally(query, universe, level, t.classifier, query, universe))
    && FromFisher(t, s)
    && (t.odds == NotDetermined <==> s.fisher(TableOf(t), s.alternative).0.NotANumber?)
    && t.missing.None?
  }

  /** The test of one (category, label) pair of the zipped lists. */
  function PlainMaker(query: seq<Row>, universe: seq<Row>, level: string, s: Settings): ((Value, string)) -> Test {
    (pr: (Value, string)) => PlainTest(level, pr.0, pr.1, Tally(query, universe, level, pr.0, query, universe), s)
  }

  /** The tests of one level, before the `False` drop: one per tested category while
      the zipped label list lasts, row `i` labelled with label `i mod k`. */
  function PlainLevelTests(query: seq<Row>, universe: seq<Row>, level: string, s: Settings): (ts: seq<Test>)
    ensures |LevelLabels(level)| == 0 ==> ts == []
    ensures |LevelLabels(level)| > 0 ==> |ts| == |Tested(query, universe, level, s.filterCount)|
    ensures forall i :: 0 <= i < |ts| ==>
      && ts[i].classifier == Tested(query, universe, level, s.filterCount)[i]
      && ts[i].level == LevelLabels(level)[i % |LevelLabels(level)|]
      && PlainOutcome(ts[i], query, universe, level, s)
  {
    var cats := Tested(query, universe, level, s.filterCount);
    PlainZip(query, universe, level, s, cats, LevelLabels(level));
    Map(Zip(cats, LabelStream(LevelLabels(level), |cats|)), PlainMaker(query, universe, level, s))
  }

  lemma PlainZip(query: seq<Row>, universe: seq<Row>, level: string, s: Settings, cats: seq<Value>, ls: seq<string>)
    ensures var ts := Map(Zip(cats, LabelStream(ls, |cats|)), PlainMaker(query, universe, level, s));
      && (|ls| == 0 ==> ts == [])
      && (|ls| > 0 ==> |ts| == |cats|)
      && forall i :: 0 <= i < |ts| ==>
        ts[i].classifier == cats[i] && ts[i].level == ls[i % |ls|] && PlainOutcome(ts[i], query, universe, level, s)
  {
    var mk := PlainMaker(query, universe, level, s);
    ZipStream(cats, ls, mk);
    forall i | 0 <= i < |cats| && |ls| > 0
      ensures mk((cats[i], ls[i % |ls|])).classifier == cats[i]
      ensures mk((cats[i], ls[i % |ls|])).level == ls[i % |ls|]
      ensures PlainOutcome(mk((cats[i], ls[i % |ls|])), query, universe, level, s)
    {
      PlainTestIs(query, universe, level, s, cats[i], ls[i % |ls|]);
    }
  }

  /** Zipping a list against `|xs|` repetitions of `ls`: nothing when `ls` is
      empty, else one item per element, the `i`-th paired with `ls[i mod |ls|]`. */
  lemma ZipStream<C, T>(xs: seq<C>, ls: seq<string>, mk: ((C, string)) -> T)
    ensures |ls| == 0 ==> Map(Zip(xs, LabelStream(ls, |xs|)), mk) == []
    ensures |ls| > 0 ==> |Map(Zip(xs, LabelStream(ls, |xs|)), mk)| == |xs|
    ensures |ls| > 0 ==> forall i :: 0 <= i < |xs| ==> Map(Zip(xs, LabelStream(ls, |xs|)), mk)[i] == mk((xs[i], ls[i % |ls|]))
  {
    var labels := LabelStream(ls, |xs|);
    if |ls| > 0 {
      assert |labels| >= |xs| by {
        MulAtLeast(|xs|, |ls|);
      }
      forall i | 0 <= i < |xs|
        ensures labels[i] == ls[i % |ls|]
      {
        LabelStreamCycles(ls, |xs|, i);
      }
    }
  }

  /** The test built for a category and a label carries both, with the counts and
      outcome of that category's test. */
  lemma PlainTestIs(query: seq<Row>, universe: seq<Row>, level: string, s: Settings, c: Value, tag: string)
    ensures PlainMaker(query, universe, level, s)((c, tag)).classifier == c
    ensures PlainMaker(query, universe, level, s)((c, tag)).level == tag
    ensures PlainOutcome(PlainMaker(query, universe, level, s)((c, tag)), query, universe, level, s)
  {
  }

  lemma MulAtLeast(n: nat, k: nat)
    requires k >= 1
    ensures n * k >= n
  {
  }

  predicate KeepClassifier(t: Test) {
    !IsFalseLike(t.classifier)
  }

  // ------------------------------------------------------------------ correction

  predicate PLe(a: Test, b: Test) {
    a.p <= b.p
  }

  /** `sort_values('p-value')`. */
  function SortByP(tests: seq<Test>): (r: seq<Test>)
    ensures |r| == |tests|
    ensures multiset(r) == multiset(tests)
    ensures forall i, j :: 0 <= i < j < |r| ==> r[i].p <= r[j].p
  {
    var s := Sort(tests, PLe);
    assert SortedBy(s, PLe);
    s
  }

  function PValues(ts: seq<Test>): (ps: seq<Probability>)
    ensures |ps| == |ts|
    ensures forall i :: 0 <= i < |ts| ==> ps[i] == ts[i].p
  {
    Map<Test, Probability>(ts, (t: Test) => t.p)
  }

  /** One block: sorted by p-value, then 'FDR' and 'Hypothesis Correction Result'
      from the correction of the sorted p-values. An empty block gets no correction;
      a non-empty one fails on a method statsmodels does not know. */
  function CorrectBlock(tests: seq<Test>, s: Settings): (r: Result<seq<Term>, Failure>)
    ensures r.Err? <==> |tests| > 0 && !KnownMethod(s.how)
    ensures r.Err? ==> r.error == UnknownMethod(s.how)
    ensures r.Ok? ==> Map(r.value, TestOf) == SortByP(tests)
    ensures r.Ok? ==> forall i :: 0 <= i < |r.value| ==>
      && r.value[i].fdr == s.mt.corrected(PValues(SortByP(tests)), s.how, s.alpha, i)
      && r.value[i].rejected == s.mt.reject(PValues(SortByP(tests)), s.how, s.alpha, i)
  {
    var sorted := SortByP(tests);
    var ps := PValues(sorted);
    var f := Fdr(ps, s.how, s.alpha, s.mt);
    if f.Err? then Err(f.error)
    else if f.value.NotDefined? then Ok([])
    else
      var h := HypothesisCorrection(ps, s.how, s.alpha, s.mt);
      Ok(Attach(sorted, f.value.values, h.value.flags))
  }

  /** The sorted tests with their 'FDR' and 'Hypothesis Correction Result' columns. */
  function Attach(sorted: seq<Test>, fdr: seq<Probability>, flags: seq<bool>): (terms: seq<Term>)
    requires |fdr| == |sorted| && |flags| == |sorted|
    ensures |terms| == |sorted| && Map(terms, TestOf) == sorted
    ensures forall i :: 0 <= i < |terms| ==> terms[i].fdr == fdr[i] && terms[i].rejected == flags[i]
  {
    var terms := seq(|sorted|, i requires 0 <= i < |sorted| => Term(sorted[i], fdr[i], flags[i]));
    assert Map(terms, TestOf) == sorted;
    terms
  }

  /** One level of the plain analysis: tests, the `False` drop, correction. */
  function PlainBlock(query: seq<Row>, universe: seq<Row>, level: string, s: Settings): Result<seq<Term>, Failure> {
    CorrectBlock(Filter(PlainLevelTests(query, universe, level, s), KeepClassifier), s)
  }

  /** What every term of the plain analysis satisfies. */
  predicate PlainTerm(t: Term, query: Table, universe: Table, s: Settings) {
    && t.test.group.Str?
    && t.test.group.s in query.columns && t.test.group.s in universe.columns
    && PlainTestOf(t.test, query.rows, universe.rows, t.test.group.s, s)
    && !IsFalseLike(t.test.classifier)
  }

  /** Correction only reorders a block: a property of every test holds of every term. */
  lemma CorrectBlockKeeps(tests: seq<Test>, s: Settings, P: Test -> bool)
    requires CorrectBlock(tests, s).Ok?
    requires forall i :: 0 <= i < |tests| ==> P(tests[i])
    ensures forall t :: t in CorrectBlock(tests, s).value ==> P(t.test)
  {
    var b := CorrectBlock(tests, s).value;
    forall t | t in b
      ensures P(t.test)
    {
      var i :| 0 <= i < |b| && b[i] == t;
      assert Map(b, TestOf)[i] == t.test;
      assert t.test in multiset(tests);
      var k :| 0 <= k < |tests| && tests[k] == t.test;
    }
  }

  /** ... and no test is lost. */
  lemma CorrectBlockHas(tests: seq<Test>, s: Settings, x: Test)
    requires CorrectBlock(tests, s).Ok?
    requires x in tests
    ensures exists t :: t in CorrectBlock(tests, s).value && t.test == x
  {
    var b := CorrectBlock(tests, s).value;
    assert x in multiset(Map(b, TestOf));
    var j :| 0 <= j < |b| && Map(b, TestOf)[j] == x;
    assert b[j] in b;
  }

  /** `b` succeeded and every term of it is among `terms`. */
  predicate BlockIn(b: Result<seq<Term>, Failure>, terms: seq<Term>) {
    b.Ok? && forall t :: t in b.value ==> t in terms
  }

  /** Every key `has` selects has a block, `blk` of it, among `terms`: what a
      loop that concatenates one block per key keeps of each block. */
  predicate BlocksIn<K>(keys: seq<K>, has: K -> bool, blk: K -> Result<seq<Term>, Failure>, terms: seq<Term>) {
    forall j :: 0 <= j < |keys| && has(keys[j]) ==> BlockIn(blk(keys[j]), terms)
  }

  /** The first `n` blocks of `blk` are among `terms`. */
  predicate BlocksBelow(n: nat, blk: nat -> Result<seq<Term>, Failure>, terms: seq<Term>) {
    forall j :: 0 <= j < n ==> BlockIn(blk(j), terms)
  }

  /** Prepending block 0 to the blocks `next` numbers from 1 on keeps them all. */
  lemma BlocksBelowStep(n: nat, blk: nat -> Result<seq<Term>, Failure>, next: nat -> Result<seq<Term>, Failure>, block: seq<Term>, rest: seq<Term>)
    requires n > 0 && blk(0) == Ok(block)
    requires forall j :: 0 <= j < n - 1 ==> next(j) == blk(j + 1)
    requires BlocksBelow(n - 1, next, rest)
    ensures BlocksBelow(n, blk, block + rest)
  {
    forall j | 0 < j < n
      ensures BlockIn(blk(j), block + rest)
    {
      assert BlockIn(next(j - 1), rest);
    }
  }

  /** The selector of a loop that processes every key. */
  function AnyKey<K>(): K -> bool {
    (k: K) => true
  }

  /** A skipped first key adds no block. */
  lemma BlocksSkip<K>(keys: seq<K>, has: K -> bool, blk: K -> Result<seq<Term>, Failure>, terms: seq<Term>)
    requires |keys| > 0 && !has(keys[0])
    requires BlocksIn(keys[1..], has, blk, terms)
    ensures BlocksIn(keys, has, blk, terms)
  {
    forall j | 0 < j < |keys| && has(keys[j])
      ensures BlockIn(blk(keys[j]), terms)
    {
      assert keys[1..][j - 1] == keys[j];
    }
  }

  /** Prepending the first key's block keeps every later block. */
  lemma BlocksStep<K>(keys: seq<K>, has: K -> bool, blk: K -> Result<seq<Term>, Failure>, block: seq<Term>, rest: seq<Term>)
    requires |keys| > 0 && blk(keys[0]) == Ok(block)
    requires BlocksIn(keys[1..], has, blk, rest)
    ensures BlocksIn(keys, has, blk, block + rest)
  {
    forall j | 0 <= j < |keys| && has(keys[j])
      ensures BlockIn(blk(keys[j]), block + rest)
    {
      if j > 0 {
        assert keys[1..][j - 1] == keys[j];
        assert BlockIn(blk(keys[j]), rest);
      }
    }
  }

  /** The tests that survive the `False` drop are tests of the level. */
  lemma PlainKept(query: seq<Row>, universe: seq<Row>, level: string, s: Settings)
    ensures forall i :: 0 <= i < |Filter(PlainLevelTests(query, universe, level, s), KeepClassifier)| ==>
      var x := Filter(PlainLevelTests(query, universe, level, s), KeepClassifier)[i];
      PlainTestOf(x, query, universe, level, s) && !IsFalseLike(x.classifier)
  {
    var ts := PlainLevelTests(query, universe, level, s);
    var cats := Tested(query, universe, level, s.filterCount);
    var ls := LevelLabels(level);
    var P := (x: Test) => PlainTestOf(x, query, universe, level, s);
    forall i | 0 <= i < |ts|
      ensures P(ts[i])
    {
      assert cats[i] in cats && ls[i % |ls|] in ls;
    }
    FilterKeeps(ts, KeepClassifier, P);
  }

  /** Every term of a level's block is a test of that level that survived the drop. */
  lemma PlainBlockTerms(query: Table, universe: Table, level: string, s: Settings)
    requires level in query.columns && level in universe.columns
    requires PlainBlock(query.rows, universe.rows, level, s).Ok?
    ensures forall t :: t in PlainBlock(query.rows, universe.rows, level, s).value ==>
      t.test.group == Str(level) && PlainTerm(t, query, universe, s)
  {
    var kept := Filter(PlainLevelTests(query.rows, universe.rows, level, s), KeepClassifier);
    var good := (x: Test) => PlainTestOf(x, query.rows, universe.rows, level, s) && !IsFalseLike(x.classifier);
    PlainKept(query.rows, universe.rows, level, s);
    CorrectBlockKeeps(kept, s, good);
  }

  /** Conversely, every tested category of a labelled level whose value is not
      `False`-like appears in the block. */
  lemma PlainBlockComplete(query: seq<Row>, universe: seq<Row>, level: string, s: Settings, c: Value)
    requires |LevelLabels(level)| > 0
    requires c in Tested(query, universe, level, s.filterCount) && !IsFalseLike(c)
    requires PlainBlock(query, universe, level, s).Ok?
    ensures exists t :: t in PlainBlock(query, universe, level, s).value && t.test.classifier == c
  {
    var cats := Tested(query, universe, level, s.filterCount);
    var ts := PlainLevelTests(query, universe, level, s);
    var kept := Filter(ts, KeepClassifier);
    var i :| 0 <= i < |cats| && cats[i] == c;
    assert ts[i].classifier == c;
    FilterHas(ts, KeepClassifier, i);
    CorrectBlockHas(kept, s, ts[i]);
  }

  /** The levels the plain analysis processes: those both tables have. */
  function Levels(levels: seq<string>, query: Table, universe: Table): seq<string> {
    Filter(levels, l => l in query.columns && l in universe.columns)
  }

  /** A level the plain analysis processes: both tables have it. */
  function InTables(query: Table, universe: Table): string -> bool {
    level => level in query.columns && level in universe.columns
  }

  /** The plain analysis' block of each level. */
  function PlainBlocks(query: Table, universe: Table, s: Settings): string -> Result<seq<Term>, Failure> {
    level => PlainBlock(query.rows, universe.rows, level, s)
  }

  /** The plain analysis over all levels: a level missing from either table is
      skipped; the blocks are concatenated in level order. */
  function PlainLevels(levels: seq<string>, query: Table, universe: Table, s: Settings): (r: Result<Frame, Failure>)
    ensures r.Ok? ==> (r.value.Columnless? <==> |Levels(levels, query, universe)| == 0)
    ensures r.Ok? ==> forall t :: t in RowsOf(r.value) ==> PlainTerm(t, query, universe, s)
    ensures r.Ok? ==> BlocksIn(levels, InTables(query, universe), PlainBlocks(query, universe, s), RowsOf(r.value))
    ensures r.Err? ==> r.error == MissingColumn(NormalizedName) || r.error == UnknownMethod(s.how)
    decreases |levels|
  {
    if |levels| == 0 then Ok(Columnless)
    else
      var level := levels[0];
      assert levels == [level] + levels[1..];
      if level !in universe.columns || level !in query.columns then
        var r := PlainLevels(levels[1..], query, universe, s);
        if r.Err? then r
        else
          BlocksSkip(levels, InTables(query, universe), PlainBlocks(query, universe, s), RowsOf(r.value));
          r
      else if NormalizedName !in universe.columns || NormalizedName !in query.columns then
        Err(MissingColumn(NormalizedName))
      else
        var block := PlainBlock(query.rows, universe.rows, level, s);
        if block.Err? then Err(block.error)
        else
          PlainBlockTerms(query, universe, level, s);
          var rest := PlainLevels(levels[1..], query, universe, s);
          if rest.Err? then Err(rest.error)
          else
            BlocksStep(levels, InTables(query, universe), PlainBlocks(query, universe, s), block.value, RowsOf(rest.value));
            Ok(Prepend(block.value, rest.value))
  }

  /** Every category tested at a labelled level of the analysis that is not
      `False`-like has a term of that level. */
  lemma PlainLevelsComplete(levels: seq<string>, query: Table, universe: Table, s: Settings, j: nat, c: Value)
    requires PlainLevels(levels, query, universe, s).Ok?
    requires j < |levels| && levels[j] in query.columns && levels[j] in universe.columns
    requires |LevelLabels(levels[j])| > 0
    requires c in Tested(query.rows, universe.rows, levels[j], s.filterCount) && !IsFalseLike(c)
    ensures exists t :: t in RowsOf(PlainLevels(levels, query, universe, s).value) &&
                        t.test.group == Str(levels[j]) && t.test.classifier == c
  {
    var terms := RowsOf(PlainLevels(levels, query, universe, s).value);
    assert BlockIn(PlainBlocks(query, universe, s)(levels[j]), terms);
    PlainBlockComplete(query.rows, universe.rows, levels[j], s, c);
    PlainBlockTerms(query, universe, levels[j], s);
    var t :| t in PlainBlock(query.rows, universe.rows, levels[j], s).value && t.test.classifier == c;
    assert t in terms;
  }

  // -------------------------------------------------------------- acyl analysis

  /** `Level.isin(options)`. */
  predicate AtLevel(r: Row, opts: seq<string>) {
    Cell(r, LevelColumn).Str? && Cell(r, LevelColumn).s in opts
  }

  function AtLevels(rows: seq<Row>, opts: seq<string>): (rs: seq<Row>)
    ensures forall r :: r in rs <==> r in rows && AtLevel(r, opts)
  {
    var p := r => AtLevel(r, opts);
    FilterMembers(rows, p);
    Filter(rows, p)
  }

  /** One acyl test: the odds ratio stays a number, and the counts are also set
      against all rows of the category (`qAll`, `uAll`). */
  function AcylTest(level: string, c: Value, tag: string, n: Counts, qAll: nat, uAll: nat, s: Settings): Test {
    var res := s.fisher(ContingencyOf(n), s.alternative);
    Test(Str(level), c, tag, Fraction(n.q, n.qTotal), Fraction(n.u, n.uTotal), res.1, Reported(res.0),
      Some(MissingInfo(Fraction(n.q, qAll), Fraction(n.u, uAll), n.q != qAll, n.u != uAll)))
  }

  /** What every test of the acyl analysis at `level` is, in a round that keeps the
      rows on the rungs `kept` and names its tests `tag`. */
  predicate AcylTestOf(t: Test, query: seq<Row>, universe: seq<Row>, level: string, kept: seq<string>, tag: string, s: Settings) {
    && t.group == Str(level)
    && t.classifier in Tested(AtLevels(query, kept), AtLevels(universe, kept), level, s.filterCount)
    && t.level == tag
    && Reports(t, Tally(AtLevels(query, kept), AtLevels(universe, kept), level, t.classifier, query, universe))
    && FromFisher(t, s)
    && t.odds.Reported?
    && t.missing == Some(MissingInfo(
        Fraction(t.noQuery.part, |RowsWhere(query, level, t.classifier)|),
        Fraction(t.noReference.part, |RowsWhere(universe, level, t.classifier)|),
        t.noQuery.part != |RowsWhere(query, level, t.classifier)|,
        t.noReference.part != |RowsWhere(universe, level, t.classifier)|))
  }

  /** The tests of one level in one round: rows filtered to the rungs `kept`, the
      name taken from `open`, the rung list as it stands when this level is reached.
      A test with no rung left to name it fails on `level_options[0]`. */
  function AcylLevelTests(query: seq<Row>, universe: seq<Row>, level: string, kept: seq<string>, open: seq<string>, s: Settings): (r: Result<seq<Test>, Failure>)
    ensures r.Err? <==> |open| == 0 && |Tested(AtLevels(query, kept), AtLevels(universe, kept), level, s.filterCount)| > 0
    ensures r.Err? ==> r.error == IndexOutOfRange
    ensures r.Ok? ==> |r.value| == |Tested(AtLevels(query, kept), AtLevels(universe, kept), level, s.filterCount)|
    ensures r.Ok? ==> forall i :: 0 <= i < |r.value| ==>
      && r.value[i].classifier == Tested(AtLevels(query, kept), AtLevels(universe, kept), level, s.filterCount)[i]
      && AcylTestOf(r.value[i], query, universe, level, kept, open[0], s)
  {
    var qf := AtLevels(query, kept);
    var uf := AtLevels(universe, kept);
    var cats := Tested(qf, uf, level, s.filterCount);
    if |cats| == 0 then Ok([])
    else if |open| == 0 then Err(IndexOutOfRange)
    else
      var tag := open[0];
      var ts := Map(cats, (c: Value) => AcylTest(level, c, tag,
        Tally(qf, uf, level, c, query, universe), |RowsWhere(query, level, c)|, |RowsWhere(universe, level, c)|, s));
      AcylMap(query, universe, level, kept, tag, s, cats, ts);
      Ok(ts)
  }

  lemma AcylMap(query: seq<Row>, universe: seq<Row>, level: string, kept: seq<string>, tag: string, s: Settings,
                cats: seq<Value>, ts: seq<Test>)
    requires cats == Tested(AtLevels(query, kept), AtLevels(universe, kept), level, s.filterCount)
    requires ts == Map(cats, (c: Value) => AcylTest(level, c, tag,
        Tally(AtLevels(query, kept), AtLevels(universe, kept), level, c, query, universe),
        |RowsWhere(query, level, c)|, |RowsWhere(universe, level, c)|, s))
    ensures forall i :: 0 <= i < |ts| ==> ts[i].classifier == cats[i] && AcylTestOf(ts[i], query, universe, level, kept, tag, s)
  {
    forall i | 0 <= i < |ts|
      ensures ts[i].classifier == cats[i] && AcylTestOf(ts[i], query, universe, level, kept, tag, s)
    {
      assert cats[i] in cats;
    }
  }

  /** Python `xs[1:]`. */
  function Tail(xs: seq<string>): seq<string> {
    if |xs| == 0 then [] else xs[1..]
  }

  /** The rung list after `k` levels: `k` times `[1:]`. */
  function DropFirst(xs: seq<string>, k: nat): (r: seq<string>)
    ensures r == if k <= |xs| then xs[k..] else []
  {
    if k <= |xs| then xs[k..] else []
  }

  /** What makes a test a row of the block of `level` in a round that keeps the rows
      on the rungs `kept`, named `tag`: a test of that level that survived the `False` drop. */
  function AcylRel(query: seq<Row>, universe: seq<Row>, s: Settings): (Test, string, seq<string>, string) -> bool {
    (x: Test, level: string, kept: seq<string>, tag: string) =>
      AcylTestOf(x, query, universe, level, kept, tag, s) && !IsFalseLike(x.classifier)
  }

  /** `x` is related by `R` to some level `levels[j]` of a round, named by the `j`-th open rung. */
  predicate SomeLevel<X>(R: (X, string, seq<string>, string) -> bool, x: X, levels: seq<string>, kept: seq<string>, open: seq<string>) {
    exists j: nat :: j < |levels| && j < |open| && R(x, levels[j], kept, open[j])
  }

  lemma SomeLevelFirst<X>(R: (X, string, seq<string>, string) -> bool, x: X, levels: seq<string>, kept: seq<string>, open: seq<string>)
    requires |levels| > 0 && |open| > 0 && R(x, levels[0], kept, open[0])
    ensures SomeLevel(R, x, levels, kept, open)
  {
  }

  /** Dropping the first level and the first rung shifts every index by one. */
  lemma SomeLevelShift<X>(R: (X, string, seq<string>, string) -> bool, x: X, levels: seq<string>, kept: seq<string>, open: seq<string>)
    requires |levels| > 0
    requires SomeLevel(R, x, levels[1..], kept, Tail(open))
    ensures SomeLevel(R, x, levels, kept, open)
  {
    var j: nat :| j < |levels[1..]| && j < |Tail(open)| && R(x, levels[1..][j], kept, Tail(open)[j]);
    assert levels[1..][j] == levels[j + 1] && Tail(open)[j] == open[j + 1];
  }

  /** Some round `m` of a ladder relates `x` to one of its levels `levels[j]`, with
      the rungs `opts[m..]` as row filter and rung `m + j` as name. */
  predicate SomeRung<X>(R: (X, string, seq<string>, string) -> bool, x: X, levels: seq<string>, opts: seq<string>) {
    exists m: nat, j: nat :: j < |levels| && m <= |opts| && j < |opts[m..]| && R(x, levels[j], opts[m..], opts[m..][j])
  }

  lemma SomeRungIntro<X>(R: (X, string, seq<string>, string) -> bool, x: X, levels: seq<string>, opts: seq<string>, m: nat, j: nat)
    requires j < |levels| && m + j < |opts| && R(x, levels[j], opts[m..], opts[m + j])
    ensures SomeRung(R, x, levels, opts)
  {
    assert opts[m..][j] == opts[m + j];
  }

  /** A level of the first round is a rung of the ladder. */
  lemma SomeRungFirst<X>(R: (X, string, seq<string>, string) -> bool, x: X, levels: seq<string>, opts: seq<string>)
    requires SomeLevel(R, x, levels, opts, opts)
    ensures SomeRung(R, x, levels, opts)
  {
    var j: nat :| j < |levels| && j < |opts| && R(x, levels[j], opts, opts[j]);
    assert opts[0..] == opts;
    SomeRungIntro(R, x, levels, opts, 0, j);
  }

  /** A rung found after dropping the first `k` rungs is a rung of the whole ladder. */
  lemma SomeRungShift<X>(R: (X, string, seq<string>, string) -> bool, x: X, levels: seq<string>, opts: seq<string>, k: nat)
    requires SomeRung(R, x, levels, DropFirst(opts, k))
    ensures SomeRung(R, x, levels, opts)
  {
    var next := DropFirst(opts, k);
    var m: nat, j: nat :| j < |levels| && m <= |next| && j < |next[m..]| && R(x, levels[j], next[m..], next[m..][j]);
    SomeRungShiftAt(R, x, levels, opts, k, m, j);
  }

  /** SomeRungShift for the chosen round `m` and level `j`. */
  lemma SomeRungShiftAt<X>(R: (X, string, seq<string>, string) -> bool, x: X, levels: seq<string>, opts: seq<string>, k: nat, m: nat, j: nat)
    requires j < |levels| && m <= |DropFirst(opts, k)| && j < |DropFirst(opts, k)[m..]|
    requires R(x, levels[j], DropFirst(opts, k)[m..], DropFirst(opts, k)[m..][j])
    ensures SomeRung(R, x, levels, opts)
  {
    DropFirstSlice(opts, k, m, j);
    SomeRungIntro(R, x, levels, opts, k + m, j);
  }

  /** Rung `j` after dropping `k`, then `m` rungs is rung `k + m + j`. */
  lemma DropFirstSlice(opts: seq<string>, k: nat, m: nat, j: nat)
    requires m <= |DropFirst(opts, k)| && j < |DropFirst(opts, k)[m..]|
    ensures k + m + j < |opts| && DropFirst(opts, k)[m..] == opts[k + m..]
    ensures DropFirst(opts, k)[m..][j] == opts[k + m + j]
  {
    assert k <= |opts|;
  }

  /** One level of a round: its tests, the `False` drop, correction as one block. */
  function AcylLevel(level: string, query: Table, universe: Table, kept: seq<string>, open: seq<string>, s: Settings): (r: Result<seq<Term>, Failure>)
    ensures level !in universe.columns || level !in query.columns ==> r == Err(MissingColumn(level))
    ensures r.Ok? ==> forall t :: t in r.value ==> |open| > 0 && AcylRel(query.rows, universe.rows, s)(t.test, level, kept, open[0])
    ensures r.Ok? ==> forall c :: c in Tested(AtLevels(query.rows, kept), AtLevels(universe.rows, kept), level, s.filterCount) && !IsFalseLike(c) ==>
      exists t :: t in r.value && t.test.classifier == c
  {
    if level !in universe.columns || level !in query.columns then Err(MissingColumn(level))
    else if NormalizedName !in universe.columns || NormalizedName !in query.columns then Err(MissingColumn(NormalizedName))
    else
      var tests :- AcylLevelTests(query.rows, universe.rows, level, kept, open, s);
      var block :- CorrectBlock(Filter(tests, KeepClassifier), s);
      AcylBlockFirst(level, query.rows, universe.rows, kept, open, s, tests, block);
      AcylBlockComplete(level, query.rows, universe.rows, kept, open, s, tests, block);
      Ok(block)
  }

  /** The corrected block of a level holds that level's tests that survived the
      `False` drop, named by the first open rung. */
  lemma AcylBlockFirst(level: string, query: seq<Row>, universe: seq<Row>, kept: seq<string>, open: seq<string>, s: Settings,
                       tests: seq<Test>, block: seq<Term>)
    requires AcylLevelTests(query, universe, level, kept, open, s) == Ok(tests)
    requires CorrectBlock(Filter(tests, KeepClassifier), s) == Ok(block)
    ensures forall t :: t in block ==> |open| > 0 && AcylRel(query, universe, s)(t.test, level, kept, open[0])
  {
    var Q := (x: Test) => |open| > 0 && AcylTestOf(x, query, universe, level, kept, open[0], s);
    assert forall i :: 0 <= i < |tests| ==> Q(tests[i]);
    FilterKeepsMasked(tests, KeepClassifier, Q);
    KeptBlockKeeps(Filter(tests, KeepClassifier), s, Q);
  }

  /** Correction keeps the outcome of the `False` drop: a property of every
      surviving test holds of every term, and no term is `False`-like. */
  lemma KeptBlockKeeps(survivors: seq<Test>, s: Settings, Q: Test -> bool)
    requires CorrectBlock(survivors, s).Ok?
    requires forall i :: 0 <= i < |survivors| ==> Q(survivors[i]) && KeepClassifier(survivors[i])
    ensures forall t :: t in CorrectBlock(survivors, s).value ==> Q(t.test) && !IsFalseLike(t.test.classifier)
  {
    CorrectBlockKeeps(survivors, s, Q);
    CorrectBlockKeeps(survivors, s, KeepClassifier);
  }


  /** Conversely, every category tested on the kept rungs whose value is not
      `False`-like appears in the level's block. */
  lemma AcylBlockComplete(level: string, query: seq<Row>, universe: seq<Row>, kept: seq<string>, open: seq<string>, s: Settings,
                          tests: seq<Test>, block: seq<Term>)
    requires AcylLevelTests(query, universe, level, kept, open, s) == Ok(tests)
    requires CorrectBlock(Filter(tests, KeepClassifier), s) == Ok(block)
    ensures forall c :: c in Tested(AtLevels(query, kept), AtLevels(universe, kept), level, s.filterCount) && !IsFalseLike(c) ==>
      exists t :: t in block && t.test.classifier == c
  {
    KeptBlockComplete(tests, Tested(AtLevels(query, kept), AtLevels(universe, kept), level, s.filterCount), s);
  }

  /** Every category of a block's tests that is not `False`-like keeps a term. */
  lemma KeptBlockComplete(tests: seq<Test>, cats: seq<Value>, s: Settings)
    requires |tests| == |cats| && forall i :: 0 <= i < |tests| ==> tests[i].classifier == cats[i]
    requires CorrectBlock(Filter(tests, KeepClassifier), s).Ok?
    ensures forall c :: c in cats && !IsFalseLike(c) ==>
      exists t :: t in CorrectBlock(Filter(tests, KeepClassifier), s).value && t.test.classifier == c
  {
    forall c | c in cats && !IsFalseLike(c)
      ensures exists t :: t in CorrectBlock(Filter(tests, KeepClassifier), s).value && t.test.classifier == c
    {
      var i :| 0 <= i < |cats| && cats[i] == c;
      assert tests[i] in tests;
      KeptBlockHas(tests, s, tests[i]);
    }
  }

  /** A test that is not `False`-like survives the drop and the correction. */
  lemma KeptBlockHas(tests: seq<Test>, s: Settings, x: Test)
    requires CorrectBlock(Filter(tests, KeepClassifier), s).Ok?
    requires x in tests && KeepClassifier(x)
    ensures exists t :: t in CorrectBlock(Filter(tests, KeepClassifier), s).value && t.test == x
  {
    FilterMembers(tests, KeepClassifier);
    CorrectBlockHas(Filter(tests, KeepClassifier), s, x);
  }


  /** One pass of the `while` loop over the levels: every level shortens the open
      rung list by one, while the row filter `kept` stays as the round began. */
  function AcylRound(levels: seq<string>, query: Table, universe: Table, kept: seq<string>, open: seq<string>, s: Settings): (r: Result<(seq<Term>, seq<string>), Failure>)
    ensures r.Ok? ==> r.value.1 == DropFirst(open, |levels|)
    decreases |levels|
  {
    if |levels| == 0 then Ok(([], open))
    else
      var block :- AcylLevel(levels[0], query, universe, kept, open, s);
      var rest :- AcylRound(levels[1..], query, universe, kept, Tail(open), s);
      Ok((block + rest.0, rest.1))
  }

  /** Level `j + 1` of a round sees the rungs level `j` of the round's tail sees. */
  lemma DropFirstTail(open: seq<string>, j: nat)
    ensures DropFirst(Tail(open), j) == DropFirst(open, j + 1)
  {
  }

  /** Block `j` of a round of `f`: level `j` with the rungs left open after the
      `j` levels before it. */
  function LevelAt(levels: seq<string>, open: seq<string>, f: (string, seq<string>) -> Result<seq<Term>, Failure>): nat -> Result<seq<Term>, Failure> {
    (j: nat) => if j < |levels| then f(levels[j], DropFirst(open, j)) else Ok([])
  }

  /** The level blocks of a round that keeps the rows on the rungs `kept`. */
  function RoundBlocks(levels: seq<string>, query: Table, universe: Table, kept: seq<string>, open: seq<string>, s: Settings): nat -> Result<seq<Term>, Failure> {
    LevelAt(levels, open, (level: string, o: seq<string>) => AcylLevel(level, query, universe, kept, o, s))
  }

  /** Conversely, a round keeps every term of every level's block. */
  lemma {:induction false} AcylRoundBlocksIn(levels: seq<string>, query: Table, universe: Table, kept: seq<string>, open: seq<string>, s: Settings)
    requires AcylRound(levels, query, universe, kept, open, s).Ok?
    ensures BlocksBelow(|levels|, RoundBlocks(levels, query, universe, kept, open, s), AcylRound(levels, query, universe, kept, open, s).value.0)
    decreases |levels|
  {
    if |levels| > 0 {
      var block := AcylLevel(levels[0], query, universe, kept, open, s).value;
      var rest := AcylRound(levels[1..], query, universe, kept, Tail(open), s).value;
      AcylRoundBlocksIn(levels[1..], query, universe, kept, Tail(open), s);
      LevelAtStep(levels, open, (level: string, o: seq<string>) => AcylLevel(level, query, universe, kept, o, s), block, rest.0);
    }
  }

  /** Prepending the first level's block keeps the blocks of the later levels. */
  lemma LevelAtStep(levels: seq<string>, open: seq<string>, f: (string, seq<string>) -> Result<seq<Term>, Failure>, block: seq<Term>, rest: seq<Term>)
    requires |levels| > 0 && f(levels[0], open) == Ok(block)
    requires BlocksBelow(|levels| - 1, LevelAt(levels[1..], Tail(open), f), rest)
    ensures BlocksBelow(|levels|, LevelAt(levels, open, f), block + rest)
  {
    var blk := LevelAt(levels, open, f);
    var next := LevelAt(levels[1..], Tail(open), f);
    forall j | 0 <= j < |levels| - 1
      ensures next(j) == blk(j + 1)
    {
      assert levels[1..][j] == levels[j + 1];
      DropFirstTail(open, j);
    }
    assert DropFirst(open, 0) == open;
    BlocksBelowStep(|levels|, blk, next, block, rest);
  }

  /** Every term of a round is the test of one of its levels, named by the rung
      open when that level is reached. */
  lemma {:induction false} AcylRoundTerms(levels: seq<string>, query: Table, universe: Table, kept: seq<string>, open: seq<string>, s: Settings)
    requires AcylRound(levels, query, universe, kept, open, s).Ok?
    ensures forall t :: t in AcylRound(levels, query, universe, kept, open, s).value.0 ==>
      SomeLevel(AcylRel(query.rows, universe.rows, s), t.test, levels, kept, open)
    decreases |levels|
  {
    if |levels| > 0 {
      var block := AcylLevel(levels[0], query, universe, kept, open, s).value;
      var rest := AcylRound(levels[1..], query, universe, kept, Tail(open), s).value;
      AcylRoundTerms(levels[1..], query, universe, kept, Tail(open), s);
      AcylRoundStep(levels, AcylRel(query.rows, universe.rows, s), kept, open, block, rest.0);
    }
  }

  lemma AcylRoundStep(levels: seq<string>, R: (Test, string, seq<string>, string) -> bool, kept: seq<string>, open: seq<string>,
                      block: seq<Term>, rest: seq<Term>)
    requires |levels| > 0
    requires forall t :: t in block ==> |open| > 0 && R(t.test, levels[0], kept, open[0])
    requires forall t :: t in rest ==> SomeLevel(R, t.test, levels[1..], kept, Tail(open))
    ensures forall t :: t in block + rest ==> SomeLevel(R, t.test, levels, kept, open)
  {
    forall t | t in block + rest
      ensures SomeLevel(R, t.test, levels, kept, open)
    {
      if t in block {
        SomeLevelFirst(R, t.test, levels, kept, open);
      } else {
        SomeLevelShift(R, t.test, levels, kept, open);
      }
    }
  }

  /** A term of the acyl analysis: the test of level `levels[j]` in a round that
      keeps the rows on the rungs `opts[m..]`, named by rung `m + j`. */
  predicate AcylTerm(t: Term, levels: seq<string>, query: Table, universe: Table, opts: seq<string>, s: Settings) {
    SomeRung(AcylRel(query.rows, universe.rows, s), t.test, levels, opts)
  }

  /** The `while` loop of the acyl analysis: each round keeps the rows whose 'Level'
      is among the rungs still open when it starts; the loop ends when none is left. */
  function AcylRounds(levels: seq<string>, query: Table, universe: Table, opts: seq<string>, s: Settings): (r: Result<seq<Term>, Failure>)
    requires |levels| > 0
    ensures r.Ok? && |opts| > 0 ==> LevelColumn in query.columns && LevelColumn in universe.columns
    ensures r.Ok? ==> forall t :: t in r.value ==> AcylTerm(t, levels, query, universe, opts, s)
    decreases |opts|
  {
    if |opts| == 0 then Ok([])
    else if LevelColumn !in universe.columns || LevelColumn !in query.columns then Err(MissingColumn(LevelColumn))
    else
      var round := AcylRound(levels, query, universe, opts, opts, s);
      if round.Err? then Err(round.error)
      else
        AcylRoundTerms(levels, query, universe, opts, opts, s);
        var rest := AcylRounds(levels, query, universe, round.value.1, s);
        if rest.Err? then Err(rest.error)
        else
          AcylRoundsStep(levels, query, universe, opts, s, round.value.0, rest.value);
          Ok(round.value.0 + rest.value)
  }

  /** The rungs still open when round `i` begins: each round closes one per level. */
  function RoundStart(opts: seq<string>, n: nat, i: nat): (r: seq<string>)
    ensures r == DropFirst(opts, i * n)
    decreases i
  {
    if i == 0 then opts
    else
      DropFirstTwice(opts, n, (i - 1) * n);
      assert i * n == n + (i - 1) * n;
      RoundStart(DropFirst(opts, n), n, i - 1)
  }

  lemma DropFirstTwice(xs: seq<string>, a: nat, b: nat)
    ensures DropFirst(DropFirst(xs, a), b) == DropFirst(xs, a + b)
  {
  }

  /** Every round that begins with a rung open keeps every level's block. */
  ghost predicate RoundsIn(levels: seq<string>, query: Table, universe: Table, opts: seq<string>, s: Settings, terms: seq<Term>) {
    forall i: nat :: |RoundStart(opts, |levels|, i)| > 0 ==>
      var kept := RoundStart(opts, |levels|, i);
      BlocksBelow(|levels|, RoundBlocks(levels, query, universe, kept, kept, s), terms)
  }

  /** Blocks among some terms are among any terms that include them. */
  lemma BlocksBelowGrow(n: nat, blk: nat -> Result<seq<Term>, Failure>, terms: seq<Term>, more: seq<Term>)
    requires BlocksBelow(n, blk, terms)
    requires forall t :: t in terms ==> t in more
    ensures BlocksBelow(n, blk, more)
  {
  }

  /** The acyl loop keeps the block of every level of every round. */
  lemma {:induction false} AcylRoundsBlocksIn(levels: seq<string>, query: Table, universe: Table, opts: seq<string>, s: Settings)
    requires |levels| > 0 && AcylRounds(levels, query, universe, opts, s).Ok?
    ensures RoundsIn(levels, query, universe, opts, s, AcylRounds(levels, query, universe, opts, s).value)
    decreases |opts|
  {
    var n := |levels|;
    var terms := AcylRounds(levels, query, universe, opts, s).value;
    if |opts| > 0 {
      var round := AcylRound(levels, query, universe, opts, opts, s).value;
      var rest := AcylRounds(levels, query, universe, round.1, s).value;
      assert terms == round.0 + rest;
      AcylRoundBlocksIn(levels, query, universe, opts, opts, s);
      AcylRoundsBlocksIn(levels, query, universe, round.1, s);
      forall i: nat | |RoundStart(opts, n, i)| > 0
        ensures BlocksBelow(n, RoundBlocks(levels, query, universe, RoundStart(opts, n, i), RoundStart(opts, n, i), s), terms)
      {
        var kept := RoundStart(opts, n, i);
        if i == 0 {
          BlocksBelowGrow(n, RoundBlocks(levels, query, universe, opts, opts, s), round.0, terms);
        } else {
          assert kept == RoundStart(round.1, n, i - 1);
          BlocksBelowGrow(n, RoundBlocks(levels, query, universe, kept, kept, s), rest, terms);
        }
      }
    }
  }

  /** Every category tested at level `j` of a round that begins with a rung open,
      on the rows that round keeps, and not `False`-like, has a term of that
      level named by rung `i * |levels| + j` of the ladder. */
  lemma AcylRoundsComplete(levels: seq<string>, query: Table, universe: Table, opts: seq<string>, s: Settings, i: nat, j: nat, c: Value)
    requires |levels| > 0 && AcylRounds(levels, query, universe, opts, s).Ok?
    requires j < |levels| && |RoundStart(opts, |levels|, i)| > 0
    requires c in Tested(AtLevels(query.rows, RoundStart(opts, |levels|, i)), AtLevels(universe.rows, RoundStart(opts, |levels|, i)), levels[j], s.filterCount)
    requires !IsFalseLike(c)
    ensures exists t :: t in AcylRounds(levels, query, universe, opts, s).value && t.test.group == Str(levels[j]) && t.test.classifier == c &&
                        i * |levels| + j < |opts| && t.test.level == opts[i * |levels| + j]
  {
    AcylRoundsBlocksIn(levels, query, universe, opts, s);
    RoundsHave(levels, query, universe, opts, s, AcylRounds(levels, query, universe, opts, s).value, i, j, c);
  }

  /** What `RoundsIn` gives for one category: its term, from its level's block. */
  lemma RoundsHave(levels: seq<string>, query: Table, universe: Table, opts: seq<string>, s: Settings, terms: seq<Term>, i: nat, j: nat, c: Value)
    requires RoundsIn(levels, query, universe, opts, s, terms)
    requires j < |levels| && |RoundStart(opts, |levels|, i)| > 0
    requires c in Tested(AtLevels(query.rows, RoundStart(opts, |levels|, i)), AtLevels(universe.rows, RoundStart(opts, |levels|, i)), levels[j], s.filterCount)
    requires !IsFalseLike(c)
    ensures exists t :: t in terms && t.test.group == Str(levels[j]) && t.test.classifier == c &&
                        i * |levels| + j < |opts| && t.test.level == opts[i * |levels| + j]
  {
    RoundsHaveOpen(levels, query, universe, opts, s, terms, i, j, c);
    RungHasTerm(opts, |levels|, i, j, terms, Str(levels[j]), c);
  }

  /** The first rung open at level `j` of round `i` is rung `i * n + j`. */
  lemma RungHasTerm(opts: seq<string>, n: nat, i: nat, j: nat, terms: seq<Term>, group: Value, c: Value)
    requires |DropFirst(RoundStart(opts, n, i), j)| > 0
    requires HasTerm(terms, group, c, DropFirst(RoundStart(opts, n, i), j)[0])
    ensures exists t :: t in terms && t.test.group == group && t.test.classifier == c &&
                        i * n + j < |opts| && t.test.level == opts[i * n + j]
  {
    RungOf(opts, n, i, j);
  }

  /** `terms` has a term of `group` and classifier `c` named by `rung`. */
  ghost predicate HasTerm(terms: seq<Term>, group: Value, c: Value, rung: string) {
    exists t :: t in terms && t.test.group == group && t.test.classifier == c && t.test.level == rung
  }

  /** The term of `RoundsHave`, named by the first rung open at level `j`. */
  lemma RoundsHaveOpen(levels: seq<string>, query: Table, universe: Table, opts: seq<string>, s: Settings, terms: seq<Term>, i: nat, j: nat, c: Value)
    requires RoundsIn(levels, query, universe, opts, s, terms)
    requires j < |levels| && |RoundStart(opts, |levels|, i)| > 0
    requires c in Tested(AtLevels(query.rows, RoundStart(opts, |levels|, i)), AtLevels(universe.rows, RoundStart(opts, |levels|, i)), levels[j], s.filterCount)
    requires !IsFalseLike(c)
    ensures |DropFirst(RoundStart(opts, |levels|, i), j)| > 0
    ensures HasTerm(terms, Str(levels[j]), c, DropFirst(RoundStart(opts, |levels|, i), j)[0])
  {
    var kept := RoundStart(opts, |levels|, i);
    var open := DropFirst(kept, j);
    var b := AcylLevel(levels[j], query, universe, kept, open, s);
    RoundLevelIn(levels, query, universe, opts, s, terms, i, j);
    AcylLevelHas(levels[j], query, universe, kept, open, s, c);
    var t :| t in b.value && t.test.group == Str(levels[j]) && t.test.classifier == c && t.test.level == open[0];
    BlockInHas(b, terms, t);
  }

  /** The block of level `j` of round `i`, read off `RoundsIn`. */
  lemma RoundLevelIn(levels: seq<string>, query: Table, universe: Table, opts: seq<string>, s: Settings, terms: seq<Term>, i: nat, j: nat)
    requires RoundsIn(levels, query, universe, opts, s, terms)
    requires j < |levels| && |RoundStart(opts, |levels|, i)| > 0
    ensures BlockIn(AcylLevel(levels[j], query, universe, RoundStart(opts, |levels|, i), DropFirst(RoundStart(opts, |levels|, i), j), s), terms)
  {
    var kept := RoundStart(opts, |levels|, i);
    assert BlockIn(RoundBlocks(levels, query, universe, kept, kept, s)(j), terms);
  }

  /** A term of a block is a term of whatever holds the block. */
  lemma BlockInHas(b: Result<seq<Term>, Failure>, terms: seq<Term>, t: Term)
    requires BlockIn(b, terms) && t in b.value
    ensures t in terms
  {
  }

  /** A level's block has a term for each tested category that is not `False`-like,
      named by the first open rung. */
  lemma AcylLevelHas(level: string, query: Table, universe: Table, kept: seq<string>, open: seq<string>, s: Settings, c: Value)
    requires AcylLevel(level, query, universe, kept, open, s).Ok?
    requires c in Tested(AtLevels(query.rows, kept), AtLevels(universe.rows, kept), level, s.filterCount) && !IsFalseLike(c)
    ensures |open| > 0
    ensures exists t :: t in AcylLevel(level, query, universe, kept, open, s).value && t.test.group == Str(level) &&
                        t.test.classifier == c && t.test.level == open[0]
  {
    var block := AcylLevel(level, query, universe, kept, open, s).value;
    var t :| t in block && t.test.classifier == c;
    assert |open| > 0 && AcylRel(query.rows, universe.rows, s)(t.test, level, kept, open[0]);
  }

  /** Level `j` of round `i` is named by rung `i * n + j` of the ladder. */
  lemma RungOf(opts: seq<string>, n: nat, i: nat, j: nat)
    requires |DropFirst(RoundStart(opts, n, i), j)| > 0
    ensures i * n + j < |opts| && DropFirst(RoundStart(opts, n, i), j)[0] == opts[i * n + j]
  {
  }

  lemma AcylRoundsStep(levels: seq<string>, query: Table, universe: Table, opts: seq<string>, s: Settings,
                       first: seq<Term>, rest: seq<Term>)
    requires |levels| > 0
    requires forall t :: t in first ==> SomeLevel(AcylRel(query.rows, universe.rows, s), t.test, levels, opts, opts)
    requires forall t :: t in rest ==> AcylTerm(t, levels, query, universe, DropFirst(opts, |levels|), s)
    ensures forall t :: t in first + rest ==> AcylTerm(t, levels, query, universe, opts, s)
  {
    var R := AcylRel(query.rows, universe.rows, s);
    forall t | t in first + rest
      ensures SomeRung(R, t.test, levels, opts)
    {
      if t in first {
        SomeRungFirst(R, t.test, levels, opts);
      } else {
        SomeRungShift(R, t.test, levels, opts, |levels|);
      }
    }
  }

  // ------------------------------------------------------------------ the analysis

  /** `calculate_enrichment_fisher`: the acyl analysis when 'Acyls' is among the
      levels, the plain analysis otherwise; both on the prepared tables. */
  function Enrich(levels: seq<string>, query: Table, universe: Table, s: Settings): (r: Result<Frame, Failure>)
    ensures CategoryColumn !in query.columns || CategoryColumn !in universe.columns ==> r == Err(MissingColumn(CategoryColumn))
    ensures r.Ok? && AcylsLevel in levels ==>
      && r.value.Terms?
      && forall t :: t in r.value.terms ==> AcylTerm(t, levels, Prepare(query).value, Prepare(universe).value, Ladder, s)
    ensures r.Ok? && AcylsLevel !in levels ==> (r.value.Columnless? <==> |Levels(levels, query, universe)| == 0)
    ensures r.Ok? && AcylsLevel !in levels ==>
      forall t :: t in RowsOf(r.value) ==> PlainTerm(t, Prepare(query).value, Prepare(universe).value, s)
  {
    var q :- Prepare(query);
    var u :- Prepare(universe);
    assert Levels(levels, q, u) == Levels(levels, query, universe);
    if AcylsLevel !in levels then PlainLevels(levels, q, u, s)
    else
      var terms :- AcylRounds(levels, q, u, Ladder, s);
      Ok(Terms(terms))
  }

  /** Without 'Acyls', the result keeps every block of every level both tables have. */
  lemma EnrichPlainBlocksIn(levels: seq<string>, query: Table, universe: Table, s: Settings)
    requires Enrich(levels, query, universe, s).Ok? && AcylsLevel !in levels
    ensures var q, u := Prepare(query).value, Prepare(universe).value;
      BlocksIn(levels, InTables(q, u), PlainBlocks(q, u, s), RowsOf(Enrich(levels, query, universe, s).value))
  {
  }

  /** With 'Acyls', the result keeps every level's block of every round of the ladder. */
  lemma EnrichRoundsIn(levels: seq<string>, query: Table, universe: Table, s: Settings)
    requires Enrich(levels, query, universe, s).Ok? && AcylsLevel in levels
    ensures RoundsIn(levels, Prepare(query).value, Prepare(universe).value, Ladder, s, RowsOf(Enrich(levels, query, universe, s).value))
  {
    AcylRoundsBlocksIn(levels, Prepare(query).value, Prepare(universe).value, Ladder, s);
  }

  /** Without 'Acyls': every category tested at a labelled level both prepared
      tables have, and not `False`-like, has a term of that level. */
  lemma EnrichPlainComplete(levels: seq<string>, query: Table, universe: Table, s: Settings, j: nat, c: Value)
    requires Enrich(levels, query, universe, s).Ok? && AcylsLevel !in levels
    requires j < |levels| && levels[j] in query.columns && levels[j] in universe.columns
    requires |LevelLabels(levels[j])| > 0
    requires c in Tested(Prepare(query).value.rows, Prepare(universe).value.rows, levels[j], s.filterCount) && !IsFalseLike(c)
    ensures exists t :: t in RowsOf(Enrich(levels, query, universe, s).value) &&
                        t.test.group == Str(levels[j]) && t.test.classifier == c
  {
    PlainLevelsComplete(levels, Prepare(query).value, Prepare(universe).value, s, j, c);
  }

  /** With 'Acyls': every category tested at level `j` in round `i` of the ladder,
      on the prepared rows that round keeps, and not `False`-like, has a term of
      that level named by rung `i * |levels| + j`. */
  lemma EnrichAcylComplete(levels: seq<string>, query: Table, universe: Table, s: Settings, i: nat, j: nat, c: Value)
    requires Enrich(levels, query, universe, s).Ok? && AcylsLevel in levels
    requires j < |levels| && |RoundStart(Ladder, |levels|, i)| > 0
    requires c in Tested(AtLevels(Prepare(query).value.rows, RoundStart(Ladder, |levels|, i)),
                         AtLevels(Prepare(universe).value.rows, RoundStart(Ladder, |levels|, i)), levels[j], s.filterCount)
    requires !IsFalseLike(c)
    ensures exists t :: t in RowsOf(Enrich(levels, query, universe, s).value) && t.test.group == Str(levels[j]) && t.test.classifier == c &&
                        i * |levels| + j < |Ladder| && t.test.level == Ladder[i * |levels| + j]
  {
    EnrichRoundsIn(levels, query, universe, s);
    RoundsHave(levels, Prepare(query).value, Prepare(universe).value, Ladder, s, RowsOf(Enrich(levels, query, universe, s).value), i, j, c);
  }

  /** With 'Acyls' as the only level, a term named by rung `m` of the ladder counts
      exactly the records whose 'Level' is rung `m` or a finer one. */
  lemma AcylsLadder(query: Table, universe: Table, s: Settings)
    requires Enrich([AcylsLevel], query, universe, s).Ok?
    ensures forall t :: t in RowsOf(Enrich([AcylsLevel], query, universe, s).value) ==>
      exists m :: (0 <= m < |Ladder| && t.test.level == Ladder[m] &&
        AcylTestOf(t.test, Prepare(query).value.rows, Prepare(universe).value.rows, AcylsLevel, Ladder[m..], Ladder[m], s) && !IsFalseLike(t.test.classifier))
  {
    forall t | t in RowsOf(Enrich([AcylsLevel], query, universe, s).value)
      ensures exists m :: (0 <= m < |Ladder| && t.test.level == Ladder[m] &&
        AcylTestOf(t.test, Prepare(query).value.rows, Prepare(universe).value.rows, AcylsLevel, Ladder[m..], Ladder[m], s) && !IsFalseLike(t.test.classifier))
    {
      AcylsLadderTerm(t, Prepare(query).value, Prepare(universe).value, s);
    }
  }

  lemma AcylsLadderTerm(t: Term, query: Table, universe: Table, s: Settings)
    requires AcylTerm(t, [AcylsLevel], query, universe, Ladder, s)
    ensures exists m :: (0 <= m < |Ladder| && t.test.level == Ladder[m] &&
      AcylTestOf(t.test, query.rows, universe.rows, AcylsLevel, Ladder[m..], Ladder[m], s) && !IsFalseLike(t.test.classifier))
  {
    var R := AcylRel(query.rows, universe.rows, s);
    var m: nat, j: nat :| j < 1 && m <= |Ladder| && j < |Ladder[m..]| && R(t.test, [AcylsLevel][j], Ladder[m..], Ladder[m..][j]);
    assert j == 0 && Ladder[m..][j] == Ladder[m];
  }
}
