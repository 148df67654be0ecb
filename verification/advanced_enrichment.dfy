/** The acyl-bin analysis (`calculate_enrichment_fisher_advanced`): for every
    category of the chosen levels, the records with at least one acyl chain in a
    bin of carbon numbers or double bonds are counted in query and universe and
    set against all named records of the category. The chain columns are found
    by the patterns 'FA\d #C' and 'FA\d #DB' in the space-joined column names. */
module AdvancedEnrichment {
  import opened Wrappers
  import opened Seqs
  import opened Strings
  import opened Tables
  import opened Correction
  import opened Enrichment
  import opened SubsetEnrichment

  const Carbons := "CARBONS"
  const DoubleBonds := "DOUBLE BONDS"
  const SpeciesLevel := "MOLECULAR_SPECIES"

  // ------------------------------------------------------------------ the bins

  /** The six filter options of the carbon and double-bond drop-downs. */
  datatype Bin = Below16 | From16To18 | Above18 | Saturated | Monounsaturated | Polyunsaturated

  function FilterText(b: Bin): string {
    match b
    case Below16 => "acyls containing less than 16 carbon atoms"
    case From16To18 => "acyls containing 16-18 carbon atoms"
    case Above18 => "acyls containing more than 18 carbon atoms"
    case Saturated => "acyls containing 0 double bonds (saturated)"
    case Monounsaturated => "acyls containing 1 double bonds (monounsaturated)"
    case Polyunsaturated => "acyls containing 2 or more double bonds (polyunsaturated)"
  }

  /** The branch a filter text selects; a text no branch compares equal to selects none. */
  function BinOf(filter: string): (r: Option<Bin>)
    ensures r.Some? ==> FilterText(r.value) == filter
  {
    if filter == FilterText(Below16) then Some(Below16)
    else if filter == FilterText(From16To18) then Some(From16To18)
    else if filter == FilterText(Above18) then Some(Above18)
    else if filter == FilterText(Saturated) then Some(Saturated)
    else if filter == FilterText(Monounsaturated) then Some(Monounsaturated)
    else if filter == FilterText(Polyunsaturated) then Some(Polyunsaturated)
    else None
  }

  /** Every option selects its own branch. */
  lemma BinOfText(b: Bin)
    ensures BinOf(FilterText(b)) == Some(b)
  {
  }

  /** The comparison of a bin on one cell; a missing cell (NaN) fails every comparison. */
  predicate InBin(b: Bin, v: Value) {
    v.Num? &&
    match b
    case Below16 => v.n < 16.0
    case From16To18 => 16.0 <= v.n <= 18.0
    case Above18 => v.n > 18.0
    case Saturated => v.n == 0.0
    case Monounsaturated => v.n == 1.0
    case Polyunsaturated => v.n >= 2.0
  }

  // ------------------------------------------------------------ chain columns

  /** The pattern 'FA\d #' followed by `tail` at position `k` of `s`: 'FA\d #C' with
      `tail` "C", 'FA\d #DB' with `tail` "DB". */
  predicate ChainColumnAt(s: string, k: nat, tail: string) {
    && k + 5 + |tail| <= |s|
    && s[k] == 'F' && s[k + 1] == 'A' && IsDigit(s[k + 2]) && s[k + 3] == ' ' && s[k + 4] == '#'
    && s[k + 5..k + 5 + |tail|] == tail
  }

  /** A whole text of the pattern's shape. */
  predicate IsChainColumn(name: string, tail: string) {
    |name| == 5 + |tail| && ChainColumnAt(name, 0, tail)
  }

  /** `re.findall` from position `k`: the leftmost match, then the search goes on
      after it. */
  function FindAllFrom(s: string, tail: string, k: nat): (ms: seq<string>)
    requires k <= |s|
    ensures forall i :: 0 <= i < |ms| ==> IsChainColumn(ms[i], tail)
    decreases |s| - k
  {
    if k == |s| then []
    else if ChainColumnAt(s, k, tail) then
      var m := s[k..k + 5 + |tail|];
      assert m[5..5 + |tail|] == s[k + 5..k + 5 + |tail|];
      [m] + FindAllFrom(s, tail, k + 5 + |tail|)
    else FindAllFrom(s, tail, k + 1)
  }

  function FindAll(s: string, tail: string): seq<string> {
    FindAllFrom(s, tail, 0)
  }

  /** No 'F' inside a match after its first character, so two matches never overlap. */
  lemma NoFInside(s: string, tail: string, k: nat, j: nat)
    requires ChainColumnAt(s, k, tail) && 'F' !in tail
    ensures k < j < k + 5 + |tail| ==> s[j] != 'F'
  {
    if k + 5 <= j < k + 5 + |tail| {
      assert s[j] == s[k + 5..k + 5 + |tail|][j - k - 5];
      assert s[j] in tail;
    }
  }

  /** Every occurrence of the pattern at or after `k` is found. */
  lemma {:induction false} FindAllFinds(s: string, tail: string, k: nat, p: nat)
    requires k <= p && ChainColumnAt(s, p, tail) && 'F' !in tail
    ensures s[p..p + 5 + |tail|] in FindAllFrom(s, tail, k)
    decreases |s| - k
  {
    if k < p {
      if ChainColumnAt(s, k, tail) {
        NoFInside(s, tail, k, p);
        FindAllFinds(s, tail, k + 5 + |tail|, p);
      } else {
        FindAllFinds(s, tail, k + 1, p);
      }
    }
  }

  /** Every name of a list occurs in the names joined by `sep`. */
  lemma {:induction false} JoinHas(xs: seq<string>, sep: string, j: nat)
    requires j < |xs|
    ensures exists off: nat :: OccursAt(Join(xs, sep), xs[j], off)
    decreases |xs|
  {
    if j == 0 {
      assert Join(xs, sep)[0..|xs[0]|] == xs[0];
      assert OccursAt(Join(xs, sep), xs[0], 0);
    } else {
      JoinHas(xs[1..], sep, j - 1);
      var rest := Join(xs[1..], sep);
      var off: nat :| OccursAt(rest, xs[1..][j - 1], off);
      var pre := xs[0] + sep;
      assert Join(xs, sep) == pre + rest;
      assert (pre + rest)[|pre| + off..|pre| + off + |xs[j]|] == rest[off..off + |xs[j]|];
      assert OccursAt(Join(xs, sep), xs[j], |pre| + off);
    }
  }

  /** The tail of the pattern each option of `specific` searches for. */
  function TailOf(specific: string): string {
    if specific == Carbons then "C" else "DB"
  }

  /** The chain columns: `matches` is assigned only for the two known options, so
      any other option leaves it unbound. */
  function MatchColumns(columns: seq<string>, specific: string): (r: Result<seq<string>, Failure>)
    ensures r.Err? <==> specific != Carbons && specific != DoubleBonds
    ensures r.Err? ==> r.error == UnboundVariable("matches")
    ensures r.Ok? ==> forall i :: 0 <= i < |r.value| ==> IsChainColumn(r.value[i], TailOf(specific))
  {
    if specific == Carbons || specific == DoubleBonds then Ok(FindAll(Join(columns, " "), TailOf(specific)))
    else Err(UnboundVariable("matches"))
  }

  /** Every column named exactly like a chain column is among the matches. */
  lemma ChainColumnFound(columns: seq<string>, specific: string, j: nat)
    requires specific == Carbons || specific == DoubleBonds
    requires j < |columns| && IsChainColumn(columns[j], TailOf(specific))
    ensures columns[j] in MatchColumns(columns, specific).value
  {
    var tail := TailOf(specific);
    var s := Join(columns, " ");
    var name := columns[j];
    JoinHas(columns, " ", j);
    var off: nat :| OccursAt(s, name, off);
    assert s[off..off + |name|] == name;
    forall i | 0 <= i < |name|
      ensures s[off + i] == name[i]
    {
      assert s[off..off + |name|][i] == s[off + i];
    }
    assert s[off + 5..off + 5 + |tail|] == name[5..5 + |tail|];
    assert ChainColumnAt(s, off, tail);
    FindAllFinds(s, tail, 0, off);
  }

  // -------------------------------------------------------------------- binning

  /** `copy.loc[copy[key] == 0, col] = np.nan` on one row. */
  function NullWhereZero(r: Row, col: string, key: string): Row {
    if Cell(r, key) == Num(0.0) then r[col := Missing] else r
  }

  function Nuller(col: string, key: string): Row -> Row {
    (r: Row) => NullWhereZero(r, col, key)
  }

  function InBinAt(col: string, b: Bin): Row -> bool {
    (r: Row) => InBin(b, Cell(r, col))
  }

  /** The mask the binning amounts to: `key` not zero and `col` in the bin. */
  function KeptBy(col: string, key: string, b: Bin): Row -> bool {
    (r: Row) => Cell(r, key) != Num(0.0) && InBin(b, Cell(r, col))
  }

  /** The rows in bin `b` of column `col` once the cells of `col` are cleared on the
      rows whose `key` is zero. */
  function BinAfterNull(rows: seq<Row>, col: string, key: string, b: Bin): seq<Row> {
    Filter(Map(rows, Nuller(col, key)), InBinAt(col, b))
  }

  /** Clearing and then binning keeps exactly the rows, unchanged, whose `key` is not
      zero and whose `col` is in the bin. */
  lemma {:induction false} BinAfterNullKeeps(rows: seq<Row>, col: string, key: string, b: Bin)
    ensures BinAfterNull(rows, col, key, b) == Filter(rows, KeptBy(col, key, b))
  {
    if |rows| > 0 {
      var h := rows[0];
      var mapped := Map(rows, Nuller(col, key));
      assert mapped[1..] == Map(rows[1..], Nuller(col, key));
      BinAfterNullKeeps(rows[1..], col, key, b);
      if Cell(h, key) == Num(0.0) {
        assert Cell(mapped[0], col) == Missing;
      } else {
        assert mapped[0] == h;
      }
    }
  }

  /** The binning as written: a chain column's zero cells are cleared before the
      comparison. */
  function BinRowsAsWritten(rows: seq<Row>, col: string, b: Bin): seq<Row> {
    BinAfterNull(rows, col, col, b)
  }

  /** As written, the saturated bin is empty whatever the records: the cells it looks
      for are the ones just cleared. */
  lemma SaturatedBinAlwaysEmpty(rows: seq<Row>, col: string)
    ensures BinRowsAsWritten(rows, col, Saturated) == []
  {
    BinAfterNullKeeps(rows, col, col, Saturated);
    FilterNone(rows, KeptBy(col, col, Saturated));
  }

  /** The carbon column of a chain's double-bond column ('FA2 #DB' gives 'FA2 #C');
      any other column stands for itself. */
  function CarbonColumnOf(col: string): (c: string)
    ensures IsChainColumn(col, "DB") ==> IsChainColumn(c, "C") && c[..5] == col[..5]
  {
    if IsChainColumn(col, "DB") then
      var c := col[..5] + "C";
      assert c[5..6] == "C";
      c
    else col
  }

  /** The binning with a chain counted as absent when its carbon number is zero:
      for carbon columns this is the binning as written. */
  function BinRows(rows: seq<Row>, col: string, b: Bin): seq<Row> {
    BinAfterNull(rows, col, CarbonColumnOf(col), b)
  }

  lemma BinRowsOfCarbons(rows: seq<Row>, col: string, b: Bin)
    requires IsChainColumn(col, "C")
    ensures BinRows(rows, col, b) == BinRowsAsWritten(rows, col, b)
  {
    assert col[5] == 'C';
  }

  /** A record is in a bin exactly when its chain is present and the chain's cell is
      in the bin; in particular the saturated bin holds the present chains without
      double bonds. */
  lemma BinRowsMembers(rows: seq<Row>, col: string, b: Bin)
    ensures forall r :: r in BinRows(rows, col, b) <==>
      r in rows && Cell(r, CarbonColumnOf(col)) != Num(0.0) && InBin(b, Cell(r, col))
  {
    BinAfterNullKeeps(rows, col, CarbonColumnOf(col), b);
    FilterMembers(rows, KeptBy(col, CarbonColumnOf(col), b));
  }

  /** A saturated chain with sixteen carbons: lost as written, counted by `BinRows`. */
  lemma SaturatedChainLost(r: Row)
    requires r == map["FA1 #C" := Num(16.0), "FA1 #DB" := Num(0.0)]
    ensures BinRowsAsWritten([r], "FA1 #DB", Saturated) == []
    ensures BinRows([r], "FA1 #DB", Saturated) == [r]
  {
    SaturatedBinAlwaysEmpty([r], "FA1 #DB");
    assert IsChainColumn("FA1 #DB", "DB");
    assert CarbonColumnOf("FA1 #DB") == "FA1 #C";
    BinAfterNullKeeps([r], "FA1 #DB", "FA1 #C", Saturated);
    assert KeptBy("FA1 #DB", "FA1 #C", Saturated)(r);
    assert [r][1..] == [];
  }

  /** The records in the bin through any of the chain columns (duplicates included,
      as concatenated before `drop_duplicates`), each column binned as written. */
  function Binned(rows: seq<Row>, matches: seq<string>, b: Bin): seq<Row>
    decreases |matches|
  {
    if |matches| == 0 then [] else BinRowsAsWritten(rows, matches[0], b) + Binned(rows, matches[1..], b)
  }

  /** A non-zero cell of the record, in one of the chain columns, is in the bin. */
  predicate ChainInBin(r: Row, matches: seq<string>, b: Bin) {
    exists i :: 0 <= i < |matches| && Cell(r, matches[i]) != Num(0.0) && InBin(b, Cell(r, matches[i]))
  }

  /** As written, a record is in a column's bin exactly when that cell is not zero
      and is in the bin. */
  lemma BinRowsAsWrittenMembers(rows: seq<Row>, col: string, b: Bin)
    ensures forall r :: r in BinRowsAsWritten(rows, col, b) <==>
      r in rows && Cell(r, col) != Num(0.0) && InBin(b, Cell(r, col))
  {
    BinAfterNullKeeps(rows, col, col, b);
    FilterMembers(rows, KeptBy(col, col, b));
  }

  /** A record is binned exactly when one of its non-zero chain cells is in the bin. */
  lemma {:induction false} BinnedMembers(rows: seq<Row>, matches: seq<string>, b: Bin)
    ensures forall r :: r in Binned(rows, matches, b) <==> r in rows && ChainInBin(r, matches, b)
    decreases |matches|
  {
    if |matches| > 0 {
      BinnedMembers(rows, matches[1..], b);
      BinRowsAsWrittenMembers(rows, matches[0], b);
      forall r
        ensures r in Binned(rows, matches, b) <==> r in rows && ChainInBin(r, matches, b)
      {
        ChainInBinStep(r, matches, b);
      }
    }
  }

  lemma ChainInBinStep(r: Row, matches: seq<string>, b: Bin)
    requires |matches| > 0
    ensures ChainInBin(r, matches, b) <==>
      (Cell(r, matches[0]) != Num(0.0) && InBin(b, Cell(r, matches[0]))) || ChainInBin(r, matches[1..], b)
  {
    if ChainInBin(r, matches, b) {
      var i :| 0 <= i < |matches| && Cell(r, matches[i]) != Num(0.0) && InBin(b, Cell(r, matches[i]));
      if i > 0 {
        assert matches[1..][i - 1] == matches[i];
      }
    }
    if ChainInBin(r, matches[1..], b) {
      var i :| 0 <= i < |matches[1..]| && Cell(r, matches[1..][i]) != Num(0.0) && InBin(b, Cell(r, matches[1..][i]));
      assert matches[1..][i] == matches[i + 1];
    }
  }

  /** As written, no record is ever in the saturated bin. */
  lemma SaturatedNeverBinned(rows: seq<Row>, matches: seq<string>)
    ensures Binned(rows, matches, Saturated) == []
  {
    BinnedMembers(rows, matches, Saturated);
    forall r | r in rows
      ensures !ChainInBin(r, matches, Saturated)
    {
      NoSaturatedChain(r, matches);
    }
    NoMemberEmpty(Binned(rows, matches, Saturated));
  }

  /** A zero chain cell is nulled before the bin test, so the test `== 0` never holds. */
  lemma NoSaturatedChain(r: Row, matches: seq<string>)
    ensures !ChainInBin(r, matches, Saturated)
  {
    forall i | 0 <= i < |matches|
      ensures !(Cell(r, matches[i]) != Num(0.0) && InBin(Saturated, Cell(r, matches[i])))
    {
      var v := Cell(r, matches[i]);
      if v.Num? {
        assert v == Num(v.n);
      }
    }
  }

  lemma NoMemberEmpty<T>(s: seq<T>)
    requires forall x :: x !in s
    ensures s == []
  {
    if s != [] {
      HeadMember(s);
    }
  }

  lemma HeadMember<T>(s: seq<T>)
    requires s != []
    ensures s[0] in s
  {
  }

  /** The named records of the bin, each counted once (`drop_duplicates`, then the
      non-null 'Normalized Name' count). */
  function BinTotal(rows: seq<Row>, matches: seq<string>, b: Bin): nat {
    NonNullCount(Dedup(Binned(rows, matches, b)), NormalizedName)
  }

  /** The bin never counts more named records than the category has. */
  lemma BinTotalBounded(rows: seq<Row>, matches: seq<string>, b: Bin)
    ensures BinTotal(rows, matches, b) <= NonNullCount(rows, NormalizedName)
  {
    var d := Dedup(Binned(rows, matches, b));
    DedupMembers(Binned(rows, matches, b));
    BinnedMembers(rows, matches, b);
    CountDistinctSub(d, rows, NonNull(NormalizedName));
  }

  // ------------------------------------------------------------- one category

  /** The four counts of a category, when the chain columns and the bin are known. */
  function Totals(u: Table, q: Table, specific: string, filter: string): (n: Option<Counts>)
    ensures n.Some? ==> n.value.q <= n.value.qTotal && n.value.u <= n.value.uTotal
    ensures n.Some? <==> MatchColumns(q.columns, specific).Ok? && |MatchColumns(q.columns, specific).value| > 0 && BinOf(filter).Some?
  {
    var ms := MatchColumns(q.columns, specific);
    var b := BinOf(filter);
    if ms.Err? || |ms.value| == 0 || b.None? then None
    else
      BinTotalBounded(q.rows, ms.value, b.value);
      BinTotalBounded(u.rows, ms.value, b.value);
      Some(Counts(BinTotal(q.rows, ms.value, b.value), BinTotal(u.rows, ms.value, b.value),
        NonNullCount(q.rows, NormalizedName), NonNullCount(u.rows, NormalizedName)))
  }

  /** The loop's failures over the chain columns: a column either copy lacks raises
      KeyError (the universe copy first), and a filter text that matches no branch
      leaves `universe_filtered` unassigned. */
  function CheckMatches(u: Table, q: Table, matches: seq<string>, bin: Option<Bin>): (r: Option<Failure>)
    ensures r.None? && |matches| > 0 ==> bin.Some?
    ensures r.None? ==> forall i :: 0 <= i < |matches| ==> matches[i] in u.columns && matches[i] in q.columns
    ensures |matches| > 0 && bin.None? && (forall i :: 0 <= i < |matches| ==> matches[i] in u.columns && matches[i] in q.columns) ==>
      r == Some(UnboundVariable("universe_filtered"))
    decreases |matches|
  {
    if |matches| == 0 then None
    else if matches[0] !in u.columns || matches[0] !in q.columns then Some(MissingColumn(matches[0]))
    else if bin.None? then Some(UnboundVariable("universe_filtered"))
    else CheckMatches(u, q, matches[1..], bin)
  }

  /** The text between the first '[' and the first ']' after it: `re.search`
      of '(?<=\[).*?(?=\])' (a line break ends the search for the ']'). */
  function CloseFrom(s: string, q: nat): (r: Option<nat>)
    requires q <= |s|
    ensures r.Some? ==> q <= r.value < |s| && s[r.value] == ']'
    ensures r.Some? ==> forall k :: q <= k < r.value ==> s[k] != ']' && s[k] != '\n'
    decreases |s| - q
  {
    if q == |s| || s[q] == '\n' then None
    else if s[q] == ']' then Some(q)
    else CloseFrom(s, q + 1)
  }

  function AbbreviationFrom(s: string, p: nat): (r: Option<string>)
    requires 1 <= p
    ensures r.Some? ==> ']' !in r.value && '\n' !in r.value
    decreases |s| + 1 - p
  {
    if p > |s| then None
    else if s[p - 1] == '[' && CloseFrom(s, p).Some? then
      var e := CloseFrom(s, p).value;
      assert forall k :: 0 <= k < e - p ==> s[p..e][k] == s[p + k];
      Some(s[p..e])
    else AbbreviationFrom(s, p + 1)
  }

  function Abbreviation(s: string): Option<string> {
    AbbreviationFrom(s, 1)
  }

  lemma {:induction false} CloseFromAt(s: string, q: nat, e: nat)
    requires q <= e < |s| && s[e] == ']'
    requires forall k :: q <= k < e ==> s[k] != ']' && s[k] != '\n'
    ensures CloseFrom(s, q) == Some(e)
    decreases e - q
  {
    if q < e {
      CloseFromAt(s, q + 1, e);
    }
  }

  lemma {:induction false} AbbreviationSkips(s: string, p: nat, start: nat)
    requires 1 <= p <= start <= |s|
    requires forall k :: p - 1 <= k < start - 1 ==> s[k] != '['
    ensures AbbreviationFrom(s, p) == AbbreviationFrom(s, start)
    decreases start - p
  {
    if p < start {
      AbbreviationSkips(s, p + 1, start);
    }
  }

  /** A category with a bracket: the abbreviation is the bracketed text. */
  lemma AbbreviationOfBracketed(a: string, b: string, z: string)
    requires '[' !in a && ']' !in b && '\n' !in b
    ensures Abbreviation(a + "[" + b + "]" + z) == Some(b)
  {
    var s := a + "[" + b + "]" + z;
    var p := |a| + 1;
    assert s[|a|] == '[';
    forall k | 0 <= k < |a|
      ensures s[k] != '['
    {
      assert s[k] == a[k];
    }
    AbbreviationSkips(s, 1, p);
    forall k | p <= k < p + |b|
      ensures s[k] != ']' && s[k] != '\n'
    {
      assert s[k] == b[k - p];
    }
    CloseFromAt(s, p, p + |b|);
    assert s[p..p + |b|] == b;
  }

  /** A category without a bracket has no abbreviation. */
  lemma {:induction false} AbbreviationNone(s: string, p: nat)
    requires 1 <= p && '[' !in s
    ensures AbbreviationFrom(s, p) == None
    decreases |s| + 1 - p
  {
    if p <= |s| {
      assert s[p - 1] in s;
      AbbreviationNone(s, p + 1);
    }
  }

  /** The 'Term (Classifier)' of a test: the abbreviation, or the whole category
      when it has none, in brackets, then ' with ' and the filter text. */
  function Classifier(category: string, filter: string): string {
    var abbr := Abbreviation(category);
    "[" + (if abbr.Some? then abbr.value else category) + "] with " + filter
  }

  lemma ClassifierOfBracketed(a: string, b: string, z: string, filter: string)
    requires '[' !in a && ']' !in b && '\n' !in b
    ensures Classifier(a + "[" + b + "]" + z, filter) == "[" + b + "] with " + filter
  {
    AbbreviationOfBracketed(a, b, z);
  }

  lemma ClassifierWithoutBracket(category: string, filter: string)
    requires '[' !in category
    ensures Classifier(category, filter) == "[" + category + "] with " + filter
  {
    AbbreviationNone(category, 1);
  }

  /** What a test of category `c` with counts `n` carries. */
  predicate AdvancedOutcome(x: Test, c: Value, n: Counts, filter: string, s: Settings) {
    && c.Str?
    && x.group == c
    && x.classifier == Str(Classifier(c.s, filter))
    && x.level == SpeciesLevel
    && Reports(x, n)
    && FromFisher(x, s)
    && x.odds == Reported(s.fisher(TableOf(x), s.alternative).0)
    && x.missing.None?
  }

  function AdvancedTest(c: string, n: Counts, filter: string, s: Settings): Test {
    var res := s.fisher(ContingencyOf(n), s.alternative);
    Test(Str(c), Str(Classifier(c, filter)), SpeciesLevel, Fraction(n.q, n.qTotal), Fraction(n.u, n.uTotal),
      res.1, Reported(res.0), None)
  }

  /** One category: grand totals (KeyError without 'Normalized Name'), the chain
      columns, the loop's failures, the bin totals (with no chain column the
      concatenation is a frame without columns and its count raises KeyError), the
      strict guard, and the abbreviation search, which needs a text category. */
  function CategoryTest(c: Value, u: Table, q: Table, specific: string, filter: string, s: Settings): (r: Result<Option<Test>, Failure>)
    ensures NormalizedName !in u.columns || NormalizedName !in q.columns ==> r == Err(MissingColumn(NormalizedName))
    ensures NormalizedName in u.columns && NormalizedName in q.columns && specific != Carbons && specific != DoubleBonds ==>
      r == Err(UnboundVariable("matches"))
    ensures r.Ok? ==> Totals(u, q, specific, filter).Some?
    ensures r.Ok? ==> (r.value.Some? <==>
      Totals(u, q, specific, filter).value.q > s.filterCount && Totals(u, q, specific, filter).value.u > s.filterCount)
    ensures r.Ok? && r.value.Some? ==> AdvancedOutcome(r.value.value, c, Totals(u, q, specific, filter).value, filter, s)
  {
    if NormalizedName !in u.columns || NormalizedName !in q.columns then Err(MissingColumn(NormalizedName))
    else
      var ms :- MatchColumns(q.columns, specific);
      var failure := CheckMatches(u, q, ms, BinOf(filter));
      if failure.Some? then Err(failure.value)
      else if |ms| == 0 then Err(MissingColumn(NormalizedName))
      else
        var n := Totals(u, q, specific, filter).value;
        if n.q > s.filterCount && n.u > s.filterCount then
          if !c.Str? then Err(NotText) else Ok(Some(AdvancedTest(c.s, n, filter, s)))
        else Ok(None)
  }

  // ----------------------------------------------------------- levels

  /** What every test of the analysis at `level` is: the test of its category's
      groups, which passed the guard. */
  predicate AdvancedTestAt(x: Test, level: string, q: Table, u: Table, specific: string, filter: string, s: Settings) {
    var n := Totals(Group(u, level, x.group), QueryGroup(q, u, level, x.group), specific, filter);
    && n.Some?
    && n.value.q > s.filterCount && n.value.u > s.filterCount
    && AdvancedOutcome(x, x.group, n.value, filter, s)
  }

  function AdvRel(q: Table, u: Table, specific: string, filter: string, s: Settings): (Test, string) -> bool {
    (x: Test, level: string) => AdvancedTestAt(x, level, q, u, specific, filter, s)
  }

  /** The tests of the categories `cats`, in order; a category that fails the guard
      adds nothing. */
  function CategoryTests(cats: seq<Value>, level: string, q: Table, u: Table, specific: string, filter: string, s: Settings): (r: Result<seq<Test>, Failure>)
    ensures r.Ok? ==> forall i :: 0 <= i < |r.value| ==>
      r.value[i].group in cats && AdvRel(q, u, specific, filter, s)(r.value[i], level)
    decreases |cats|
  {
    if |cats| == 0 then Ok([])
    else
      var c := cats[0];
      var o :- CategoryTest(c, Group(u, level, c), QueryGroup(q, u, level, c), specific, filter, s);
      var rest :- CategoryTests(cats[1..], level, q, u, specific, filter, s);
      CategoryTestsStep(cats, level, AdvRel(q, u, specific, filter, s), o, rest);
      Ok(if o.Some? then [o.value] + rest else rest)
  }

  /** The test of each category at `level`, on the category's groups. */
  function CategoryTestAt(level: string, q: Table, u: Table, specific: string, filter: string, s: Settings): Value -> Result<Option<Test>, Failure> {
    c => CategoryTest(c, Group(u, level, c), QueryGroup(q, u, level, c), specific, filter, s)
  }

  /** Every category's test succeeded, and every test that passed the guard is in `tests`. */
  predicate TestsIn(cats: seq<Value>, f: Value -> Result<Option<Test>, Failure>, tests: seq<Test>) {
    forall k :: 0 <= k < |cats| ==> f(cats[k]).Ok? && (f(cats[k]).value.Some? ==> f(cats[k]).value.value in tests)
  }

  /** Conversely, every category's test succeeded and each one that passed the
      guard is kept. */
  lemma {:induction false} CategoryTestsComplete(cats: seq<Value>, level: string, q: Table, u: Table, specific: string, filter: string, s: Settings)
    requires CategoryTests(cats, level, q, u, specific, filter, s).Ok?
    ensures TestsIn(cats, CategoryTestAt(level, q, u, specific, filter, s), CategoryTests(cats, level, q, u, specific, filter, s).value)
    decreases |cats|
  {
    if |cats| > 0 {
      var f := CategoryTestAt(level, q, u, specific, filter, s);
      var o := CategoryTest(cats[0], Group(u, level, cats[0]), QueryGroup(q, u, level, cats[0]), specific, filter, s).value;
      CategoryTestsComplete(cats[1..], level, q, u, specific, filter, s);
      TestsInStep(cats, f, o, CategoryTests(cats[1..], level, q, u, specific, filter, s).value);
    }
  }

  /** What `TestsIn` says of one category. */
  lemma TestsInHas(cats: seq<Value>, f: Value -> Result<Option<Test>, Failure>, tests: seq<Test>, c: Value)
    requires TestsIn(cats, f, tests) && c in cats
    ensures f(c).Ok? && (f(c).value.Some? ==> f(c).value.value in tests)
  {
    var k :| 0 <= k < |cats| && cats[k] == c;
  }

  lemma TestsInStep(cats: seq<Value>, f: Value -> Result<Option<Test>, Failure>, o: Option<Test>, rest: seq<Test>)
    requires |cats| > 0 && f(cats[0]) == Ok(o)
    requires TestsIn(cats[1..], f, rest)
    ensures TestsIn(cats, f, if o.Some? then [o.value] + rest else rest)
  {
    var all := if o.Some? then [o.value] + rest else rest;
    forall k | 0 < k < |cats|
      ensures f(cats[k]).Ok? && (f(cats[k]).value.Some? ==> f(cats[k]).value.value in all)
    {
      assert cats[1..][k - 1] == cats[k];
    }
  }

  lemma CategoryTestsStep(cats: seq<Value>, level: string, R: (Test, string) -> bool, o: Option<Test>, rest: seq<Test>)
    requires |cats| > 0
    requires o.Some? ==> o.value.group == cats[0] && R(o.value, level)
    requires forall i :: 0 <= i < |rest| ==> rest[i].group in cats[1..] && R(rest[i], level)
    ensures var all := if o.Some? then [o.value] + rest else rest;
      forall i :: 0 <= i < |all| ==> all[i].group in cats && R(all[i], level)
  {
    var all := if o.Some? then [o.value] + rest else rest;
    forall i | 0 <= i < |all|
      ensures all[i].group in cats && R(all[i], level)
    {
      if o.Some? && i > 0 {
        assert all[i] == rest[i - 1];
      }
    }
  }

  /** One level: grouping needs the level in both tables; its tests are sorted by
      p-value and corrected as one block. */
  function AdvancedLevel(level: string, q: Table, u: Table, specific: string, filter: string, s: Settings): (r: Result<seq<Term>, Failure>)
    ensures level !in u.columns || level !in q.columns ==> r == Err(MissingColumn(level))
    ensures r.Ok? ==> forall t :: t in r.value ==>
      t.test.group in Candidates(u.rows, level) && AdvRel(q, u, specific, filter, s)(t.test, level)
  {
    if level !in u.columns || level !in q.columns then Err(MissingColumn(level))
    else
      var tests :- CategoryTests(Candidates(u.rows, level), level, q, u, specific, filter, s);
      var block :- CorrectBlock(tests, s);
      CorrectBlockKeeps(tests, s, (x: Test) => x.group in Candidates(u.rows, level) && AdvRel(q, u, specific, filter, s)(x, level));
      Ok(block)
  }

  /** Conversely, every category the universe has at the level was tested, and
      each test that passed the guard is a term of the level. */
  lemma AdvancedLevelComplete(level: string, q: Table, u: Table, specific: string, filter: string, s: Settings, c: Value)
    requires AdvancedLevel(level, q, u, specific, filter, s).Ok?
    requires c in Candidates(u.rows, level)
    ensures CategoryTestAt(level, q, u, specific, filter, s)(c).Ok?
    ensures var o := CategoryTestAt(level, q, u, specific, filter, s)(c).value;
      o.Some? ==> exists t :: t in AdvancedLevel(level, q, u, specific, filter, s).value && t.test == o.value
  {
    var cats := Candidates(u.rows, level);
    var f := CategoryTestAt(level, q, u, specific, filter, s);
    AdvancedLevelIs(level, q, u, specific, filter, s);
    var tests := CategoryTests(cats, level, q, u, specific, filter, s).value;
    CategoryTestsComplete(cats, level, q, u, specific, filter, s);
    TestsInHas(cats, f, tests, c);
    KeptInBlock(f(c).value, tests, s);
  }

  /** A level both tables have is the corrected block of its category tests. */
  lemma AdvancedLevelIs(level: string, q: Table, u: Table, specific: string, filter: string, s: Settings)
    requires AdvancedLevel(level, q, u, specific, filter, s).Ok?
    ensures CategoryTests(Candidates(u.rows, level), level, q, u, specific, filter, s).Ok?
    ensures AdvancedLevel(level, q, u, specific, filter, s) ==
            CorrectBlock(CategoryTests(Candidates(u.rows, level), level, q, u, specific, filter, s).value, s)
  {
  }

  /** A test kept among a block's tests, if any, has a term in the corrected block. */
  lemma KeptInBlock(o: Option<Test>, tests: seq<Test>, s: Settings)
    requires CorrectBlock(tests, s).Ok?
    requires o.Some? ==> o.value in tests
    ensures o.Some? ==> exists t :: t in CorrectBlock(tests, s).value && t.test == o.value
  {
    if o.Some? {
      CorrectBlockHas(tests, s, o.value);
    }
  }

  /** The block of each level. */
  function AdvancedLevelOf(q: Table, u: Table, specific: string, filter: string, s: Settings): string -> Result<seq<Term>, Failure> {
    level => AdvancedLevel(level, q, u, specific, filter, s)
  }

  predicate AtSomeLevel(R: (Test, string) -> bool, x: Test, levels: seq<string>, u: Table) {
    exists j :: 0 <= j < |levels| && x.group in Candidates(u.rows, levels[j]) && R(x, levels[j])
  }

  function AdvancedLevels(levels: seq<string>, q: Table, u: Table, specific: string, filter: string, s: Settings): (r: Result<Frame, Failure>)
    ensures r.Ok? ==> (r.value.Columnless? <==> |levels| == 0)
    ensures r.Ok? ==> forall t :: t in RowsOf(r.value) ==> AtSomeLevel(AdvRel(q, u, specific, filter, s), t.test, levels, u)
    ensures r.Ok? ==> BlocksIn(levels, AnyKey(), AdvancedLevelOf(q, u, specific, filter, s), RowsOf(r.value))
    decreases |levels|
  {
    if |levels| == 0 then Ok(Columnless)
    else
      var block :- AdvancedLevel(levels[0], q, u, specific, filter, s);
      var rest :- AdvancedLevels(levels[1..], q, u, specific, filter, s);
      AdvancedLevelsStep(levels, AdvRel(q, u, specific, filter, s), u, block, RowsOf(rest));
      BlocksStep(levels, AnyKey(), AdvancedLevelOf(q, u, specific, filter, s), block, RowsOf(rest));
      Ok(Prepend(block, rest))
  }

  lemma AdvancedLevelsStep(levels: seq<string>, R: (Test, string) -> bool, u: Table, block: seq<Term>, rest: seq<Term>)
    requires |levels| > 0
    requires forall t :: t in block ==> t.test.group in Candidates(u.rows, levels[0]) && R(t.test, levels[0])
    requires forall t :: t in rest ==> AtSomeLevel(R, t.test, levels[1..], u)
    ensures forall t :: t in block + rest ==> AtSomeLevel(R, t.test, levels, u)
  {
    forall t | t in block + rest
      ensures AtSomeLevel(R, t.test, levels, u)
    {
      if t !in block {
        var j :| 0 <= j < |levels[1..]| && t.test.group in Candidates(u.rows, levels[1..][j]) && R(t.test, levels[1..][j]);
        assert levels[1..][j] == levels[j + 1];
      }
    }
  }

  /** `calculate_enrichment_fisher_advanced`: the undefined category is dropped from
      both tables (KeyError without the category column, the query first), then the
      levels are processed in order. */
  function Advanced(levels: seq<string>, query: Table, universe: Table, specific: string, filter: string, s: Settings): (r: Result<Frame, Failure>)
    ensures CategoryColumn !in query.columns || CategoryColumn !in universe.columns ==> r == Err(MissingColumn(CategoryColumn))
    ensures r.Ok? ==> (r.value.Columnless? <==> |levels| == 0)
    ensures r.Ok? ==> forall t :: t in RowsOf(r.value) ==>
      AtSomeLevel(AdvRel(RemoveUndefined(query).value, RemoveUndefined(universe).value, specific, filter, s),
        t.test, levels, RemoveUndefined(universe).value)
  {
    var q :- RemoveUndefined(query);
    var u :- RemoveUndefined(universe);
    AdvancedLevels(levels, q, u, specific, filter, s)
  }

  /** The result keeps every level's block, on the tables without the undefined category. */
  lemma AdvancedBlocksIn(levels: seq<string>, query: Table, universe: Table, specific: string, filter: string, s: Settings)
    requires Advanced(levels, query, universe, specific, filter, s).Ok?
    ensures var q, u := RemoveUndefined(query).value, RemoveUndefined(universe).value;
      BlocksIn(levels, AnyKey(), AdvancedLevelOf(q, u, specific, filter, s), RowsOf(Advanced(levels, query, universe, specific, filter, s).value))
  {
  }

  /** Every category the universe (without the undefined category) has at a
      level was tested, and each test that passed the guard is a term. */
  lemma AdvancedComplete(levels: seq<string>, query: Table, universe: Table, specific: string, filter: string, s: Settings, j: nat, c: Value)
    requires Advanced(levels, query, universe, specific, filter, s).Ok?
    requires j < |levels| && c in Candidates(RemoveUndefined(universe).value.rows, levels[j])
    ensures var q, u := RemoveUndefined(query).value, RemoveUndefined(universe).value;
      CategoryTest(c, Group(u, levels[j], c), QueryGroup(q, u, levels[j], c), specific, filter, s).Ok?
    ensures var q, u := RemoveUndefined(query).value, RemoveUndefined(universe).value;
      var o := CategoryTest(c, Group(u, levels[j], c), QueryGroup(q, u, levels[j], c), specific, filter, s).value;
      o.Some? ==> exists t :: t in RowsOf(Advanced(levels, query, universe, specific, filter, s).value) && t.test == o.value
  {
    var q, u := RemoveUndefined(query).value, RemoveUndefined(universe).value;
    var terms := RowsOf(Advanced(levels, query, universe, specific, filter, s).value);
    AdvancedBlocksIn(levels, query, universe, specific, filter, s);
    assert BlockIn(AdvancedLevelOf(q, u, specific, filter, s)(levels[j]), terms);
    AdvancedLevelComplete(levels[j], q, u, specific, filter, s, c);
    var o := CategoryTestAt(levels[j], q, u, specific, filter, s)(c).value;
    if o.Some? {
      var t :| t in AdvancedLevel(levels[j], q, u, specific, filter, s).value && t.test == o.value;
      assert t in terms;
    }
  }

  /** Every contingency table the analysis hands to the test is free of negative
      entries: the binned records are records of the category. */
  lemma AdvancedNonNegative(levels: seq<string>, q: Table, u: Table, specific: string, filter: string, s: Settings, x: Test)
    requires AtSomeLevel(AdvRel(q, u, specific, filter, s), x, levels, u)
    ensures NonNegative(TableOf(x))
  {
    var j :| 0 <= j < |levels| && x.group in Candidates(u.rows, levels[j]) && AdvRel(q, u, specific, filter, s)(x, levels[j]);
    assert AdvancedTestAt(x, levels[j], q, u, specific, filter, s);
  }

  /** As written, the saturated option's bin counts are zero in both tables. */
  lemma SaturatedTotalsZero(u: Table, q: Table, specific: string)
    ensures var n := Totals(u, q, specific, FilterText(Saturated));
      n.Some? ==> n.value.q == 0 && n.value.u == 0
  {
    BinOfText(Saturated);
    var ms := MatchColumns(q.columns, specific);
    if ms.Ok? {
      SaturatedNeverBinned(q.rows, ms.value);
      SaturatedNeverBinned(u.rows, ms.value);
    }
  }

  /** As written, the analysis never reports a saturated bin: no count passes the
      guard. */
  lemma AdvancedNeverSaturated(levels: seq<string>, query: Table, universe: Table, specific: string, s: Settings)
    requires Advanced(levels, query, universe, specific, FilterText(Saturated), s).Ok?
    ensures RowsOf(Advanced(levels, query, universe, specific, FilterText(Saturated), s).value) == []
  {
    var terms := RowsOf(Advanced(levels, query, universe, specific, FilterText(Saturated), s).value);
    if terms != [] {
      var t := terms[0];
      assert t in terms;
      var q := RemoveUndefined(query).value;
      var u := RemoveUndefined(universe).value;
      var j :| 0 <= j < |levels| && t.test.group in Candidates(u.rows, levels[j])
        && AdvRel(q, u, specific, FilterText(Saturated), s)(t.test, levels[j]);
      assert AdvancedTestAt(t.test, levels[j], q, u, specific, FilterText(Saturated), s);
      SaturatedTotalsZero(Group(u, levels[j], t.test.group), QueryGroup(q, u, levels[j], t.test.group), specific);
    }
  }

  /** As written, the saturated option never yields a test: its bin totals are zero. */
  lemma SaturatedNeverCounted(rows: seq<Row>, matches: seq<string>)
    ensures forall i :: 0 <= i < |matches| ==> BinRowsAsWritten(rows, matches[i], Saturated) == []
  {
    forall i | 0 <= i < |matches|
      ensures BinRowsAsWritten(rows, matches[i], Saturated) == []
    {
      SaturatedBinAlwaysEmpty(rows, matches[i]);
    }
  }
}
