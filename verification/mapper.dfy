/** `table_for_upset` (src/utils/reverse_table_upset.py): the lipid × term table
    behind the UpSet diagram. Each significant term becomes a column that holds its
    p-value on the lipids the term stands for and 1 elsewhere.

    The loop carries three pieces of state from one term to the next, and the model
    carries them too:
    - the query, whose chain columns lose their zeros in the carbon and
      double-bond branch;
    - the last `filtered_df`, which a branch that finds neither its category nor its
      class reuses;
    - the last `matches`, which a double-bond or carbon term whose filter names
      neither reuses. */
module TermMapper {
  import opened Wrappers
  import opened Seqs
  import opened Strings
  import opened Tables
  import opened UniqueNames
  import Enrichment
  import Acyls
  import AdvancedEnrichment
  import Intersection

  const FilteredName := "filtered_df"
  const MatchesName := "matches"
  const ChainsColumn := "FAs"
  const IndexColumn := "index"
  const WithinSep := " within "
  const WithSep := " with "

  /** One column of the table: its header, the term's p-value, and the unique names
      (with their chain counters) of the lipids it holds. */
  datatype Block = Block(header: string, p: real, members: seq<string>)

  /** The state of the loop over the terms. */
  datatype Scan = Scan(query: Table, filtered: Option<Table>, matches: Option<seq<string>>, blocks: seq<Block>)

  // ---------------------------------------------------------------- helpers

  /** `df[mask]`. */
  function Where(t: Table, p: Row -> bool): (r: Table)
    ensures r.columns == t.columns
    ensures forall row :: row in r.rows <==> row in t.rows && p(row)
  {
    FilterMembers(t.rows, p);
    Table(t.columns, Filter(t.rows, p))
  }

  function KeyOf(keys: seq<string>): Row -> seq<Value> {
    (r: Row) => Map(keys, (k: string) => Cell(r, k))
  }

  /** `drop_duplicates(subset=keys)`: a key the table lacks raises KeyError; otherwise
      the first row of each key survives. */
  function DedupOn(t: Table, keys: seq<string>): (r: Result<Table, Failure>)
    ensures r.Err? <==> exists k :: k in keys && k !in t.columns
    ensures r.Ok? ==> r.value.columns == t.columns
    ensures r.Ok? ==> forall row :: row in r.value.rows ==> row in t.rows
    ensures r.Ok? ==> |r.value.rows| <= |t.rows|
    ensures r.Ok? ==> forall i :: 0 <= i < |t.rows| ==> KeyOf(keys)(t.rows[i]) in Map(r.value.rows, KeyOf(keys))
  {
    match FirstMissing(keys, t.columns)
    case Some(k) => Err(MissingColumn(k))
    case None => Ok(Table(t.columns, DedupBy(t.rows, KeyOf(keys))))
  }

  function NameText(r: Row): string {
    ValueText(Cell(r, UniqueNameColumn))
  }

  /** `filtered_df['Unique Name']`, the index of the term's column. */
  function NamesOf(t: Table): (names: seq<string>)
    ensures |names| == |t.rows|
    ensures forall i :: 0 <= i < |t.rows| ==> names[i] == NameText(t.rows[i])
  {
    Map(t.rows, NameText)
  }

  /** Deduplicating on the unique name keeps one row per name and loses no name. */
  lemma NamesAfterDedup(t: Table, d: Table)
    requires DedupOn(t, [UniqueNameColumn]) == Ok(d)
    ensures forall x :: x in NamesOf(d) <==> exists row :: row in t.rows && NameText(row) == x
  {
    var key := KeyOf([UniqueNameColumn]);
    forall x | x in NamesOf(d)
      ensures exists row :: row in t.rows && NameText(row) == x
    {
      var i :| 0 <= i < |d.rows| && NamesOf(d)[i] == x;
      assert d.rows[i] in t.rows;
    }
    forall x | exists row :: row in t.rows && NameText(row) == x
      ensures x in NamesOf(d)
    {
      var row :| row in t.rows && NameText(row) == x;
      var i :| 0 <= i < |t.rows| && t.rows[i] == row;
      assert key(row) in Map(d.rows, key);
      var j :| 0 <= j < |d.rows| && key(d.rows[j]) == key(row);
      assert key(d.rows[j])[0] == Cell(d.rows[j], UniqueNameColumn);
      assert key(row)[0] == Cell(row, UniqueNameColumn);
      assert NamesOf(d)[j] == x;
    }
  }

  /** `list.index(x)`: the first position of `x`. */
  function IndexIn(xs: seq<string>, x: string): (r: Result<nat, Failure>)
    ensures r.Err? <==> x !in xs
    ensures r.Err? ==> r.error == NotInList(x)
    ensures r.Ok? ==> r.value < |xs| && xs[r.value] == x && x !in xs[..r.value]
  {
    if |xs| == 0 then Err(NotInList(x))
    else if xs[0] == x then Ok(0)
    else
      match IndexIn(xs[1..], x)
      case Err(e) => Err(e)
      case Ok(k) =>
        assert xs[..k + 1] == [xs[0]] + xs[1..][..k];
        Ok(k + 1)
  }

  /** The levels from the term's level upwards on the ladder of structural detail. */
  function LevelsFrom(level: string): Result<seq<string>, Failure> {
    var k :- IndexIn(Enrichment.Ladder, level);
    Ok(Enrichment.Ladder[k..])
  }

  /** The classifier compared with the subset's parameter: a digit string is read as a
      number (`isdigit`/`int` and `isnumeric`/`float` agree on ASCII digits). */
  function Condition(c: Value): (r: Result<Value, Failure>)
    ensures r.Err? <==> !c.Str?
    ensures r.Ok? && !IsDigitString(c.s) ==> r.value == c
    ensures r.Ok? && IsDigitString(c.s) ==> r.value == Num(ParseNat(c.s) as real)
  {
    if !c.Str? then Err(NotText)
    else if IsDigitString(c.s) then Ok(Num(ParseNat(c.s) as real))
    else Ok(c)
  }

  /** The header `'{group}: {classifier}'`. */
  function Plain(g: string, c: Value): string {
    g + ": " + ValueText(c)
  }

  /** The header `'{group} [{level}]: {classifier}'`. */
  function Leveled(g: string, level: string, c: Value): string {
    g + " [" + level + "]: " + ValueText(c)
  }

  function Added(st: Scan, f: Table, b: Block): Scan {
    st.(filtered := Some(f), blocks := st.blocks + [b])
  }

  // ---------------------------------------------------------------- row masks

  function Matching(col: string, v: Value): Row -> bool {
    (r: Row) => Cell(r, col) == v
  }

  function AcylMatching(col: string, v: Value, levels: seq<string>): Row -> bool {
    (r: Row) => Cell(r, col) == v && Enrichment.AtLevel(r, levels)
  }

  /** `(df[col] == subset) & (df[param] == v)`, with the level mask in the acyl case. */
  predicate InSubset(r: Row, col: string, subset: Value, param: string, v: Value, levels: Option<seq<string>>) {
    Cell(r, col) == subset && Cell(r, param) == v && (levels.None? || Enrichment.AtLevel(r, levels.value))
  }

  function SubsetMatching(col: string, subset: Value, param: string, v: Value, levels: Option<seq<string>>): Row -> bool {
    (r: Row) => InSubset(r, col, subset, param, v, levels)
  }

  function BinMatching(col: string, subset: Value, chain: string, b: AdvancedEnrichment.Bin): Row -> bool {
    (r: Row) => Cell(r, col) == subset && AdvancedEnrichment.InBin(b, Cell(r, chain))
  }

  /** The last table read as `filtered_df`, or the NameError of a variable never set. */
  function Stale(filtered: Option<Table>): (r: Result<Table, Failure>)
    ensures filtered.None? <==> r == Err(UnboundVariable(FilteredName))
    ensures filtered.Some? ==> r == Ok(filtered.value)
  {
    if filtered.Some? then Ok(filtered.value) else Err(UnboundVariable(FilteredName))
  }

  /** The selection of the 'within' branches: the rows of the subset found in the
      category column, overridden by those found in the class column, and the last
      `filtered_df` when the subset is in neither. */
  function SubsetRows(q: Table, subset: Value, param: string, cond: Result<Value, Failure>,
                      levels: Option<seq<string>>, stale: Option<Table>): (r: Result<Table, Failure>)
    ensures CategoryColumn !in q.columns ==> r == Err(MissingColumn(CategoryColumn))
    ensures r.Ok? && subset in Column(q.rows, ClassColumn) ==>
      cond.Ok? && r.value == Where(q, SubsetMatching(ClassColumn, subset, param, cond.value, levels))
    ensures r.Ok? && subset !in Column(q.rows, ClassColumn) && subset in Column(q.rows, CategoryColumn) ==>
      cond.Ok? && r.value == Where(q, SubsetMatching(CategoryColumn, subset, param, cond.value, levels))
    ensures (&& subset !in Column(q.rows, ClassColumn) && subset !in Column(q.rows, CategoryColumn)
             && CategoryColumn in q.columns && ClassColumn in q.columns) ==> r == Stale(stale)
  {
    if CategoryColumn !in q.columns then Err(MissingColumn(CategoryColumn))
    else
      var inCategory := subset in Column(q.rows, CategoryColumn);
      if inCategory && cond.Err? then Err(cond.error)
      else if inCategory && param !in q.columns then Err(MissingColumn(param))
      else if inCategory && levels.Some? && LevelColumn !in q.columns then Err(MissingColumn(LevelColumn))
      else if ClassColumn !in q.columns then Err(MissingColumn(ClassColumn))
      else
        var inClass := subset in Column(q.rows, ClassColumn);
        if inClass && cond.Err? then Err(cond.error)
        else if inClass && param !in q.columns then Err(MissingColumn(param))
        else if inClass && levels.Some? && LevelColumn !in q.columns then Err(MissingColumn(LevelColumn))
        else if inClass then Ok(Where(q, SubsetMatching(ClassColumn, subset, param, cond.value, levels)))
        else if inCategory then Ok(Where(q, SubsetMatching(CategoryColumn, subset, param, cond.value, levels)))
        else Stale(stale)
  }

  // ---------------------------------------------------------------- the six branches

  /** Lines 32-41: a category or class term holds the query's lipids of that
      category or class. */
  function CategoryStep(st: Scan, t: Enrichment.Term, g: string): (r: Result<Scan, Failure>)
    ensures g !in st.query.columns ==> r == Err(MissingColumn(g))
    ensures r.Ok? ==> r.value.query == st.query && r.value.matches == st.matches
    ensures r.Ok? ==> |r.value.blocks| == |st.blocks| + 1 && r.value.blocks[..|st.blocks|] == st.blocks
    ensures r.Ok? ==> r.value.blocks[|st.blocks|].header == Plain(g, t.test.classifier)
  {
    if g !in st.query.columns then Err(MissingColumn(g))
    else
      var d :- DedupOn(Where(st.query, Matching(g, t.test.classifier)), [UniqueNameColumn]);
      Ok(Added(st, d, Block(Plain(g, t.test.classifier), t.test.p, NamesOf(d))))
  }

  /** Lines 43-62: an 'Acyls' term holds the chains of its classifier at its level
      or above, one entry per lipid and chain, told apart by a counter. */
  function AcylStep(st: Scan, t: Enrichment.Term, g: string): (r: Result<Scan, Failure>)
    ensures r.Ok? ==> r.value.query == st.query && r.value.matches == st.matches
    ensures r.Ok? ==> |r.value.blocks| == |st.blocks| + 1 && r.value.blocks[..|st.blocks|] == st.blocks
    ensures r.Ok? ==> r.value.blocks[|st.blocks|].header == Leveled(g, t.test.level, t.test.classifier)
  {
    var levels :- LevelsFrom(t.test.level);
    var fa :- Acyls.GetFADf(st.query);
    if g !in fa.columns then Err(MissingColumn(g))
    else if LevelColumn !in fa.columns then Err(MissingColumn(LevelColumn))
    else
      var d :- DedupOn(Where(fa, AcylMatching(g, t.test.classifier, levels)), [UniqueNameColumn, ChainsColumn]);
      Ok(Added(st, d, Block(Leveled(g, t.test.level, t.test.classifier), t.test.p, Counted(NamesOf(d)))))
  }

  /** Lines 65-87: a 'Total … within subset' term; a group without ' within ' has no
      subset to read. */
  function TotalStep(st: Scan, t: Enrichment.Term, g: string): (r: Result<Scan, Failure>)
    ensures !Contains(g, WithinSep) ==> r == Err(IndexOutOfRange)
    ensures r.Ok? ==> r.value.query == st.query && r.value.matches == st.matches
    ensures r.Ok? ==> |r.value.blocks| == |st.blocks| + 1 && r.value.blocks[..|st.blocks|] == st.blocks
    ensures r.Ok? ==> r.value.blocks[|st.blocks|].header == Plain(g, t.test.classifier)
  {
    var parts := Split(g, WithinSep);
    if |parts| < 2 then Err(IndexOutOfRange)
    else
      var f :- SubsetRows(st.query, Str(parts[1]), parts[0], Condition(t.test.classifier), None, st.filtered);
      var d :- DedupOn(f, [UniqueNameColumn]);
      Ok(Added(st, d, Block(Plain(g, t.test.classifier), t.test.p, NamesOf(d))))
  }

  /** Lines 89-114: an 'Acyls within subset' term, on the chain table; duplicates
      are dropped per original name and chain. */
  function AcylWithinStep(st: Scan, t: Enrichment.Term, g: string): (r: Result<Scan, Failure>)
    ensures !Contains(g, WithinSep) ==> r == Err(IndexOutOfRange)
    ensures r.Ok? ==> r.value.query == st.query && r.value.matches == st.matches
    ensures r.Ok? ==> |r.value.blocks| == |st.blocks| + 1 && r.value.blocks[..|st.blocks|] == st.blocks
    ensures r.Ok? ==> r.value.blocks[|st.blocks|].header == Leveled(g, t.test.level, t.test.classifier)
  {
    var parts := Split(g, WithinSep);
    if |parts| < 2 then Err(IndexOutOfRange)
    else
      var levels :- LevelsFrom(t.test.level);
      var fa :- Acyls.GetFADf(st.query);
      var f :- SubsetRows(fa, Str(parts[1]), parts[0], Ok(t.test.classifier), Some(levels), st.filtered);
      var d :- DedupOn(f, [OriginalName, ChainsColumn]);
      if UniqueNameColumn !in d.columns then Err(MissingColumn(UniqueNameColumn))
      else Ok(Added(st, d, Block(Leveled(g, t.test.level, t.test.classifier), t.test.p, Counted(NamesOf(d)))))
  }

  /** Lines 123-126: the chain columns a filter text asks for; the double-bond
      search overrides the carbon one, and a text naming neither keeps the last. */
  function ChainMatches(columns: seq<string>, filter: string, last: Option<seq<string>>): (r: Option<seq<string>>)
    ensures Contains(filter, "double bonds") ==> r == Some(AdvancedEnrichment.FindAll(Join(columns, " "), "DB"))
    ensures !Contains(filter, "double bonds") && Contains(filter, "carbon") ==> r == Some(AdvancedEnrichment.FindAll(Join(columns, " "), "C"))
    ensures !Contains(filter, "double bonds") && !Contains(filter, "carbon") ==> r == last
  {
    var text := Join(columns, " ");
    if Contains(filter, "double bonds") then Some(AdvancedEnrichment.FindAll(text, "DB"))
    else if Contains(filter, "carbon") then Some(AdvancedEnrichment.FindAll(text, "C"))
    else last
  }

  /** Line 130: `query[chain].replace(0, NaN)`, which persists in the query. */
  function ClearZeros(q: Table, chain: string): (r: Table)
    ensures r.columns == q.columns && |r.rows| == |q.rows|
    ensures forall i :: 0 <= i < |q.rows| ==> Cell(r.rows[i], chain) != Num(0.0)
    ensures forall i, c :: 0 <= i < |q.rows| && c != chain ==> Cell(r.rows[i], c) == Cell(q.rows[i], c)
  {
    Table(q.columns, Map(q.rows, AdvancedEnrichment.Nuller(chain, chain)))
  }

  /** Lines 133-168: the subset's rows whose chain falls in the bin; a filter text
      that is no bin leaves `filtered_df` as it was. */
  function BinSelect(q: Table, subset: Value, chain: string, bin: Option<AdvancedEnrichment.Bin>, stale: Option<Table>): (r: Result<Table, Failure>)
    ensures bin.None? ==> r == Stale(stale)
    ensures r.Ok? && bin.Some? && subset in Column(q.rows, ClassColumn) ==>
      r.value == Where(q, BinMatching(ClassColumn, subset, chain, bin.value))
    ensures r.Ok? && bin.Some? && subset !in Column(q.rows, ClassColumn) && subset in Column(q.rows, CategoryColumn) ==>
      r.value == Where(q, BinMatching(CategoryColumn, subset, chain, bin.value))
  {
    if bin.None? then Stale(stale)
    else if CategoryColumn !in q.columns then Err(MissingColumn(CategoryColumn))
    else if ClassColumn !in q.columns then Err(MissingColumn(ClassColumn))
    else if subset in Column(q.rows, ClassColumn) then Ok(Where(q, BinMatching(ClassColumn, subset, chain, bin.value)))
    else if subset in Column(q.rows, CategoryColumn) then Ok(Where(q, BinMatching(CategoryColumn, subset, chain, bin.value)))
    else Stale(stale)
  }

  /** `pd.concat([acc, f])`, the first time with the empty DataFrame. */
  function Append(acc: Option<Table>, f: Table): (r: Table)
    ensures r.rows == (if acc.None? then [] else acc.value.rows) + f.rows
  {
    if acc.None? then f
    else Table(acc.value.columns + Filter(f.columns, (c: string) => c !in acc.value.columns), acc.value.rows + f.rows)
  }

  /** The state of the inner loop over the chain columns. */
  datatype Pass = Pass(query: Table, filtered: Option<Table>, collected: Option<Table>)

  /** Lines 129-172: per chain column, clear its zeros, select the bin, and add
      the selection to the names collected so far. */
  function ChainLoop(p: Pass, subset: Value, bin: Option<AdvancedEnrichment.Bin>, chains: seq<string>): (r: Result<Pass, Failure>)
    ensures |chains| == 0 ==> r == Ok(p)
    ensures r.Ok? && |chains| > 0 ==> r.value.collected.Some? && r.value.filtered.Some?
    ensures r.Ok? ==> r.value.query.columns == p.query.columns
    decreases |chains|
  {
    if |chains| == 0 then Ok(p)
    else if chains[0] !in p.query.columns then Err(MissingColumn(chains[0]))
    else
      var q := ClearZeros(p.query, chains[0]);
      var f :- BinSelect(q, subset, chains[0], bin, p.filtered);
      var joined :- DedupOn(Append(p.collected, f), [UniqueNameColumn]);
      ChainLoop(Pass(q, Some(f), Some(joined)), subset, bin, chains[1..])
  }

  /** Lines 116-179: a term whose group is a category or class of the query is a
      carbon or double-bond bin within it; its header is the group and the filter. */
  function BinStep(st: Scan, t: Enrichment.Term, g: string): (r: Result<Scan, Failure>)
    ensures CategoryColumn !in st.query.columns ==> r == Err(MissingColumn(CategoryColumn))
    ensures r.Ok? ==> r.value.query.columns == st.query.columns
    ensures r.Ok? ==> |st.blocks| <= |r.value.blocks| <= |st.blocks| + 1 && r.value.blocks[..|st.blocks|] == st.blocks
  {
    var q := st.query;
    if CategoryColumn !in q.columns then Err(MissingColumn(CategoryColumn))
    else
      var inCategory := Str(g) in Column(q.rows, CategoryColumn);
      if !inCategory && ClassColumn !in q.columns then Err(MissingColumn(ClassColumn))
      else if !inCategory && Str(g) !in Column(q.rows, ClassColumn) then Ok(st)
      else if !t.test.classifier.Str? then Err(NotText)
      else
        var parts := Split(t.test.classifier.s, WithSep);
        if |parts| < 2 then Err(IndexOutOfRange)
        else
          var filter := parts[1];
          var found := ChainMatches(q.columns, filter, st.matches);
          if found.None? then Err(UnboundVariable(MatchesName))
          else
            var p :- ChainLoop(Pass(q, st.filtered, None), Str(g), AdvancedEnrichment.BinOf(filter), found.value);
            if p.collected.None? then Err(MissingColumn(UniqueNameColumn))
            else Ok(Scan(p.query, p.filtered, found, st.blocks + [Block(g + " " + filter, t.test.p, NamesOf(p.collected.value))]))
  }

  /** Lines 181-202: an 'FA …' or 'LCB … within subset' term. */
  function FaStep(st: Scan, t: Enrichment.Term, g: string): (r: Result<Scan, Failure>)
    ensures !Contains(g, WithinSep) ==> r == Err(IndexOutOfRange)
    ensures r.Ok? ==> r.value.query == st.query && r.value.matches == st.matches
    ensures r.Ok? ==> |r.value.blocks| == |st.blocks| + 1 && r.value.blocks[..|st.blocks|] == st.blocks
    ensures r.Ok? ==> r.value.blocks[|st.blocks|].header == Plain(g, t.test.classifier)
  {
    var parts := Split(g, WithinSep);
    if |parts| < 2 then Err(IndexOutOfRange)
    else
      var cond :- Condition(t.test.classifier);
      var f :- SubsetRows(st.query, Str(parts[1]), parts[0], Ok(cond), None, st.filtered);
      var d :- DedupOn(f, [UniqueNameColumn]);
      Ok(Added(st, d, Block(Plain(g, t.test.classifier), t.test.p, NamesOf(d))))
  }

  /** `re.findall("Acyls$", g) != []`: `$` also matches before a final newline. */
  predicate EndsAcyls(g: string) {
    EndsWith(g, "Acyls") || EndsWith(g, "Acyls\n")
  }

  /** One pass of the loop body: the six tests are independent `if`s, so a term can
      add more than one column. */
  function Step(st: Scan, t: Enrichment.Term): (r: Result<Scan, Failure>)
    ensures !t.test.group.Str? ==> r == Err(NotText)
  {
    if !t.test.group.Str? then Err(NotText)
    else
      var g := t.test.group.s;
      var s1 :- if g == CategoryColumn || g == ClassColumn then CategoryStep(st, t, g) else Ok(st);
      var s2 :- if StartsWith(g, "Acyls") && EndsAcyls(g) then AcylStep(s1, t, g) else Ok(s1);
      var s3 :- if StartsWith(g, "Total") then TotalStep(s2, t, g) else Ok(s2);
      var s4 :- if StartsWith(g, "Acyls") && !EndsAcyls(g) then AcylWithinStep(s3, t, g) else Ok(s3);
      var s5 :- BinStep(s4, t, g);
      if StartsWith(g, "FA") || StartsWith(g, "LCB") then FaStep(s5, t, g) else Ok(s5)
  }

  function Steps(st: Scan, terms: seq<Enrichment.Term>): (r: Result<Scan, Failure>)
    ensures |terms| == 0 ==> r == Ok(st)
    decreases |terms|
  {
    if |terms| == 0 then Ok(st)
    else
      var s :- Step(st, terms[0]);
      Steps(s, terms[1..])
  }

  // ---------------------------------------------------------------- the assembled table

  function MembersOf(b: Block): seq<string> {
    b.members
  }

  function HeaderOf(b: Block): string {
    b.header
  }

  /** The index after the column-wise concatenations: every member of every
      column, in order of first appearance. */
  function AllMembers(blocks: seq<Block>): seq<string> {
    Dedup(Flatten(Map(blocks, MembersOf)))
  }

  /** After `fillna(1)`: the term's p-value where the lipid is a member, 1 elsewhere. */
  function TermCells(blocks: seq<Block>, n: string): Row
    decreases |blocks|
  {
    if |blocks| == 0 then map[]
    else
      var b := blocks[|blocks| - 1];
      TermCells(blocks[..|blocks| - 1], n)[b.header := if n in b.members then Num(b.p) else Num(1.0)]
  }

  /** One row: the term cells and, under 'Names', the unique name without its counter. */
  function UpsetRow(blocks: seq<Block>, n: string): Row {
    TermCells(blocks, n)[Intersection.NamesColumn := Str(StripCounters(n))]
  }

  function RowMaker(blocks: seq<Block>): string -> Row {
    n => UpsetRow(blocks, n)
  }

  /** Lines 204-212: `reset_index`, the rename to 'Names', the removal of the counters
      and `fillna(1)`. Without any column the frame only gets 'index'. */
  function Assemble(blocks: seq<Block>): (t: Table)
    ensures |blocks| == 0 ==> t == Table([IndexColumn], [])
    ensures |blocks| > 0 ==> t.columns == [Intersection.NamesColumn] + Map(blocks, HeaderOf)
    ensures |blocks| > 0 ==> |t.rows| == |AllMembers(blocks)|
  {
    if |blocks| == 0 then Table([IndexColumn], [])
    else Table([Intersection.NamesColumn] + Map(blocks, HeaderOf), Map(AllMembers(blocks), RowMaker(blocks)))
  }

  /** `table_for_upset(df, query)`. */
  function TableForUpset(terms: seq<Enrichment.Term>, query: Table): (r: Result<Table, Failure>)
    ensures NormalizedName !in query.columns ==> r == Err(MissingColumn(NormalizedName))
    ensures |terms| == 0 && AddUniqueNames(query).Ok? ==> r == Ok(Table([IndexColumn], []))
  {
    var q :- AddUniqueNames(query);
    var st :- Steps(Scan(q, None, None, []), terms);
    Ok(Assemble(st.blocks))
  }

  // ---------------------------------------------------------------- properties

  /** A category or class column holds exactly the unique names of the query rows of
      that category or class: the rows the enrichment counted for the term. */
  lemma CategoryMembers(st: Scan, t: Enrichment.Term, g: string, r: Scan)
    requires CategoryStep(st, t, g) == Ok(r)
    ensures forall x :: x in r.blocks[|st.blocks|].members <==>
      exists row :: row in RowsWhere(st.query.rows, g, t.test.classifier) && NameText(row) == x
  {
    var w := Where(st.query, Matching(g, t.test.classifier));
    var d := DedupOn(w, [UniqueNameColumn]).value;
    NamesAfterDedup(w, d);
    assert r.blocks[|st.blocks|].members == NamesOf(d);
    forall row
      ensures row in w.rows <==> row in RowsWhere(st.query.rows, g, t.test.classifier)
    {
    }
  }

  /** The counters the acyl branches add are what the final `re.sub` removes. */
  lemma CountersRemoved(names: seq<string>, i: nat)
    requires i < |names| && NoParen(names[i])
    ensures StripCounters(Counted(names)[i]) == names[i]
  {
    StripCounted(names[i], Occurrence(names, i));
  }

  /** A group that starts with 'Total' but names no subset, such as the 'Total #C'
      level of the general analysis, fails the loop with an IndexError. */
  lemma TotalWithoutSubset(st: Scan, t: Enrichment.Term, g: string)
    requires t.test.group == Str(g) && StartsWith(g, "Total") && !Contains(g, WithinSep)
    ensures Step(st, t) == Err(IndexOutOfRange)
  {
    assert g[0] == 'T';
    assert CategoryColumn[0] == 'L' && ClassColumn[0] == 'L';
  }

  lemma NoSubsetInTotalC()
    ensures !Contains("Total #C", WithinSep)
  {
    var s := "Total #C";
    assert !OccursAt(s, WithinSep, 0) by {
      assert s[0..8][0] == 'T';
    }
    assert forall k: nat :: k > 0 ==> !OccursAt(s, WithinSep, k);
  }

  /** The general analysis' test at level 'Total #C' (its group is the level) cannot
      be drawn: the loop fails on it. */
  lemma TotalCTermFails(st: Scan, t: Enrichment.Term)
    requires t.test.group == Str("Total #C")
    ensures Step(st, t) == Err(IndexOutOfRange)
  {
    NoSubsetInTotalC();
    assert StartsWith("Total #C", "Total") by {
      assert "Total #C"[..5] == "Total";
    }
    TotalWithoutSubset(st, t, "Total #C");
  }

  /** A 'Total … within X' term for an X that is neither a category nor a class of the
      query selects nothing of its own: with no table selected before it fails, and
      otherwise it repeats the lipids of the last table selected. */
  lemma TotalOutsideQuery(st: Scan, t: Enrichment.Term, g: string)
    requires |Split(g, WithinSep)| >= 2
    requires CategoryColumn in st.query.columns && ClassColumn in st.query.columns
    requires Str(Split(g, WithinSep)[1]) !in Column(st.query.rows, CategoryColumn)
    requires Str(Split(g, WithinSep)[1]) !in Column(st.query.rows, ClassColumn)
    ensures st.filtered.None? ==> TotalStep(st, t, g) == Err(UnboundVariable(FilteredName))
    ensures st.filtered.Some? && TotalStep(st, t, g).Ok? ==>
      DedupOn(st.filtered.value, [UniqueNameColumn]).Ok? &&
      TotalStep(st, t, g).value.blocks[|st.blocks|].members == NamesOf(DedupOn(st.filtered.value, [UniqueNameColumn]).value)
  {
    var parts := Split(g, WithinSep);
    var f := SubsetRows(st.query, Str(parts[1]), parts[0], Condition(t.test.classifier), None, st.filtered);
    assert f == Stale(st.filtered);
  }

  /** Clearing a chain column leaves every other column as it was. */
  lemma ClearKeeps(q: Table, chain: string, col: string, v: Value)
    requires col != chain
    ensures v in Column(ClearZeros(q, chain).rows, col) <==> v in Column(q.rows, col)
  {
    var c := ClearZeros(q, chain);
    if v in Column(q.rows, col) {
      var i :| 0 <= i < |q.rows| && Column(q.rows, col)[i] == v;
      assert Column(c.rows, col)[i] == v;
    }
    if v in Column(c.rows, col) {
      var i :| 0 <= i < |c.rows| && Column(c.rows, col)[i] == v;
      assert Column(q.rows, col)[i] == v;
    }
  }

  /** Once a chain's zeros are cleared, no row of the chain is saturated. */
  lemma SaturatedSelectsNothing(q: Table, subset: Value, chain: string, col: string)
    ensures Where(ClearZeros(q, chain), BinMatching(col, subset, chain, AdvancedEnrichment.Saturated)).rows == []
  {
    var c := ClearZeros(q, chain);
    var keep := BinMatching(col, subset, chain, AdvancedEnrichment.Saturated);
    forall i | 0 <= i < |c.rows|
      ensures !keep(c.rows[i])
    {
      assert Cell(c.rows[i], chain) != Num(0.0);
    }
    FilterNone(c.rows, keep);
  }

  /** The inner loop of a saturated term collects no lipid while the subset is a
      category or class of the query. */
  lemma {:induction false} SaturatedLoopEmpty(p: Pass, subset: Value, chains: seq<string>, r: Pass)
    requires ChainLoop(p, subset, Some(AdvancedEnrichment.Saturated), chains) == Ok(r)
    requires p.collected.None? || p.collected.value.rows == []
    requires subset in Column(p.query.rows, CategoryColumn) || subset in Column(p.query.rows, ClassColumn)
    requires forall k :: 0 <= k < |chains| ==> chains[k] != CategoryColumn && chains[k] != ClassColumn
    ensures r.collected.None? || r.collected.value.rows == []
    decreases |chains|
  {
    if |chains| > 0 {
      var chain := chains[0];
      var q := ClearZeros(p.query, chain);
      ClearKeeps(p.query, chain, CategoryColumn, subset);
      ClearKeeps(p.query, chain, ClassColumn, subset);
      var f := BinSelect(q, subset, chain, Some(AdvancedEnrichment.Saturated), p.filtered).value;
      SaturatedSelectsNothing(p.query, subset, chain, CategoryColumn);
      SaturatedSelectsNothing(p.query, subset, chain, ClassColumn);
      assert f.rows == [];
      var joined := DedupOn(Append(p.collected, f), [UniqueNameColumn]).value;
      assert Append(p.collected, f).rows == [];
      SaturatedLoopEmpty(Pass(q, Some(f), Some(joined)), subset, chains[1..], r);
    }
  }

  /** A chain column found by the pattern is never the category or class column. */
  lemma ChainsAreNotGroups(columns: seq<string>, tail: string)
    ensures forall k :: 0 <= k < |AdvancedEnrichment.FindAll(Join(columns, " "), tail)| ==>
      AdvancedEnrichment.FindAll(Join(columns, " "), tail)[k] != CategoryColumn &&
      AdvancedEnrichment.FindAll(Join(columns, " "), tail)[k] != ClassColumn
  {
    var ms := AdvancedEnrichment.FindAll(Join(columns, " "), tail);
    forall k | 0 <= k < |ms|
      ensures ms[k] != CategoryColumn && ms[k] != ClassColumn
    {
      assert AdvancedEnrichment.IsChainColumn(ms[k], tail);
      assert ms[k][0] == 'F';
      assert CategoryColumn[0] == 'L' && ClassColumn[0] == 'L';
    }
  }

  lemma SaturatedMentionsDoubleBonds()
    ensures Contains(AdvancedEnrichment.FilterText(AdvancedEnrichment.Saturated), "double bonds")
  {
    var s := AdvancedEnrichment.FilterText(AdvancedEnrichment.Saturated);
    assert s == "acyls containing 0 " + "double bonds" + " (saturated)";
    assert OccursAt(s, "double bonds", 19);
  }

  /** As written, the column of a saturated-chains term is always empty: line 130
      clears the zeros the saturated bin looks for (the enrichment's own binning
      has the same defect). */
  lemma SaturatedTermEmpty(st: Scan, t: Enrichment.Term, g: string, r: Scan)
    requires BinStep(st, t, g) == Ok(r) && |r.blocks| > |st.blocks|
    requires t.test.classifier.Str? && |Split(t.test.classifier.s, WithSep)| >= 2
    requires Split(t.test.classifier.s, WithSep)[1] == AdvancedEnrichment.FilterText(AdvancedEnrichment.Saturated)
    ensures r.blocks[|st.blocks|].members == []
  {
    var q := st.query;
    var filter := Split(t.test.classifier.s, WithSep)[1];
    SaturatedMentionsDoubleBonds();
    AdvancedEnrichment.BinOfText(AdvancedEnrichment.Saturated);
    var found := ChainMatches(q.columns, filter, st.matches);
    assert found == Some(AdvancedEnrichment.FindAll(Join(q.columns, " "), "DB"));
    ChainsAreNotGroups(q.columns, "DB");
    var p := ChainLoop(Pass(q, st.filtered, None), Str(g), Some(AdvancedEnrichment.Saturated), found.value).value;
    SaturatedLoopEmpty(Pass(q, st.filtered, None), Str(g), found.value, p);
  }

  // ---------------------------------------------------------------- the assembled table

  lemma {:induction false} FlattenMembers(xss: seq<seq<string>>, x: string)
    ensures x in Flatten(xss) <==> exists j :: 0 <= j < |xss| && x in xss[j]
  {
    if |xss| > 0 {
      FlattenMembers(xss[1..], x);
      if x in xss[0] {
        assert x in xss[0] + Flatten(xss[1..]);
      }
      if exists j :: 0 <= j < |xss[1..]| && x in xss[1..][j] {
        var j :| 0 <= j < |xss[1..]| && x in xss[1..][j];
        assert x in xss[j + 1];
      }
      if exists j :: 0 <= j < |xss| && x in xss[j] {
        var j :| 0 <= j < |xss| && x in xss[j];
        if j > 0 {
          assert x in xss[1..][j - 1];
        }
      }
    }
  }

  /** The rows are the lipids of the columns: a unique name has a row exactly when
      some term holds it, and no name has two. */
  lemma AssembledRows(blocks: seq<Block>, x: string)
    ensures x in AllMembers(blocks) <==> exists j :: 0 <= j < |blocks| && x in blocks[j].members
    ensures Distinct(AllMembers(blocks))
  {
    var m := Map(blocks, MembersOf);
    DedupMembers(Flatten(m));
    FlattenMembers(m, x);
    if exists j :: 0 <= j < |blocks| && x in blocks[j].members {
      var j :| 0 <= j < |blocks| && x in blocks[j].members;
      assert x in m[j];
    }
  }

  lemma {:induction false} TermCellsAt(blocks: seq<Block>, n: string, j: nat)
    requires j < |blocks| && Distinct(Map(blocks, HeaderOf))
    ensures Cell(TermCells(blocks, n), blocks[j].header) == if n in blocks[j].members then Num(blocks[j].p) else Num(1.0)
    decreases |blocks|
  {
    var last := |blocks| - 1;
    if j < last {
      var init := blocks[..last];
      assert Map(blocks, HeaderOf)[j] != Map(blocks, HeaderOf)[last];
      forall a, b | 0 <= a < b < |init|
        ensures Map(init, HeaderOf)[a] != Map(init, HeaderOf)[b]
      {
        assert Map(blocks, HeaderOf)[a] != Map(blocks, HeaderOf)[b];
      }
      TermCellsAt(init, n, j);
    }
  }

  /** With distinct headers, p-values up to the limit and a limit below 1, the cell of
      row `i` under term `j` counts as a member for the diagram exactly when the lipid
      is one of the term's; the 'Names' cell is the name without its counter. */
  lemma AssembledMembership(blocks: seq<Block>, limit: real, i: nat, j: nat)
    requires |blocks| > 0 && Distinct(Map(blocks, HeaderOf))
    requires forall k :: 0 <= k < |blocks| ==> blocks[k].header != Intersection.NamesColumn && blocks[k].p <= limit
    requires limit < 1.0
    requires i < |AllMembers(blocks)| && j < |blocks|
    ensures Intersection.MemberAt(Assemble(blocks).rows, limit, blocks[j].header, i) <==> AllMembers(blocks)[i] in blocks[j].members
    ensures Cell(Assemble(blocks).rows[i], Intersection.NamesColumn) == Str(StripCounters(AllMembers(blocks)[i]))
  {
    var n := AllMembers(blocks)[i];
    var row := Assemble(blocks).rows[i];
    assert row == UpsetRow(blocks, n);
    TermCellsAt(blocks, n, j);
    assert Cell(row, blocks[j].header) == Cell(TermCells(blocks, n), blocks[j].header);
  }

  /** The diagram reads the terms back in the order the loop added them. */
  lemma AssembledTerms(blocks: seq<Block>)
    requires |blocks| > 0
    requires forall k :: 0 <= k < |blocks| ==> blocks[k].header != Intersection.NamesColumn
    ensures Intersection.Terms(Assemble(blocks).columns) == Map(blocks, HeaderOf)
  {
    var hs := Map(blocks, HeaderOf);
    var keep := (c: string) => c != Intersection.NamesColumn;
    assert Assemble(blocks).columns == [Intersection.NamesColumn] + hs;
    assert ([Intersection.NamesColumn] + hs)[1..] == hs;
    FilterAll(hs, keep);
    assert Intersection.Terms(Assemble(blocks).columns) == Filter([Intersection.NamesColumn] + hs, keep);
  }
}
