/** The tabular data the pipeline works on: a pandas DataFrame is a list of
    column names and a list of rows, each row mapping column names to cells. */
module Tables {
  import opened Wrappers
  import opened Seqs
  import opened Strings

  /** One cell. Integers and floats share `Num` (within one typed pandas column,
      value equality is the same); NaN and None are both `Missing`. */
  datatype Value = Str(s: string) | Num(n: real) | Bool(b: bool) | Missing

  type Row = map<string, Value>

  datatype Table = Table(columns: seq<string>, rows: seq<Row>)

  /** What the Python code raises at the point modelled. */
  datatype Failure =
    | MissingColumn(name: string)   // KeyError on a column
    | MissingKey(key: string)       // KeyError on a dictionary
    | IndexOutOfRange               // IndexError on a list
    | NotInList(item: string)       // ValueError of `list.index`
    | NoMatch                       // AttributeError on a failed `re.search(...).span()`
    | NotANumber                    // ValueError of `int(nan)`
    | NotText                       // TypeError of a string operation on a non-string
    | NothingToConcatenate          // ValueError of `pd.concat([])`
    | EmptySequence                 // ValueError of `max()` on nothing
    | UnboundVariable(name: string) // UnboundLocalError
    | UnknownMethod(name: string)   // ValueError of an unknown correction method
    | UndefinedName                 // ValueError raised by `find_ethers`
    | DuplicateColumn(column: string) // ValueError of inserting an existing column
    | FrameIntoColumn               // ValueError of setting a frame of several columns into one

  const NormalizedName := "Normalized Name"
  const OriginalName := "Original Name"
  const CategoryColumn := "Lipid Maps Category"
  const ClassColumn := "Lipid Maps Main Class"
  const LevelColumn := "Level"

  /** `row[c]`, with an absent key read as missing. */
  function Cell(r: Row, c: string): Value {
    if c in r then r[c] else Missing
  }

  function Column(rows: seq<Row>, c: string): (vs: seq<Value>)
    ensures |vs| == |rows|
    ensures forall i :: 0 <= i < |rows| ==> vs[i] == Cell(rows[i], c)
  {
    Map(rows, (r: Row) => Cell(r, c))
  }

  function NonNull(c: string): Row -> bool {
    (r: Row) => Cell(r, c) != Missing
  }

  /** `df[c].count()`: the non-null cells of a column. */
  function NonNullCount(rows: seq<Row>, c: string): nat {
    Count(rows, NonNull(c))
  }

  /** The rows of `df[df[c] == v]`; for a non-missing `v` also one `groupby(c)` group. */
  function RowsWhere(rows: seq<Row>, c: string, v: Value): (rs: seq<Row>)
    ensures forall r :: r in rs <==> r in rows && Cell(r, c) == v
  {
    var p := (r: Row) => Cell(r, c) == v;
    FilterMembers(rows, p);
    Filter(rows, p)
  }

  lemma {:induction false} RowsWhereNone(rows: seq<Row>, c: string, v: Value)
    requires forall i :: 0 <= i < |rows| ==> Cell(rows[i], c) != v
    ensures RowsWhere(rows, c, v) == []
  {
    if |rows| > 0 {
      RowsWhereNone(rows[1..], c, v);
    }
  }

  /** The keys of `groupby(c)`: distinct non-null values (NaN keys are dropped),
      in ascending order (`sort=True`). */
  function GroupKeys(rows: seq<Row>, c: string): (keys: seq<Value>)
    ensures Distinct(keys)
    ensures forall v :: v in keys <==> v != Missing && v in Column(rows, c)
    ensures forall i, j :: 0 <= i < j < |keys| ==> ValueLe(keys[i], keys[j])
  {
    var col := Column(rows, c);
    var present := Filter(col, (v: Value) => v != Missing);
    FilterMembers(col, (v: Value) => v != Missing);
    DedupMembers(present);
    var d := Dedup(present);
    var keys := SortValues(d);
    DistinctPermutation(d, keys);
    assert forall v :: v in keys <==> v in multiset(keys);
    assert forall v :: v in d <==> v in multiset(d);
    keys
  }

  lemma ValueLePreorder()
    ensures TotalPreorder((a: Value, b: Value) => ValueLe(a, b))
  {
    forall a: Value, b: Value
      ensures ValueLe(a, b) || ValueLe(b, a)
    {
      ValueLeTotal(a, b);
    }
    forall a: Value, b: Value, d: Value | ValueLe(a, b) && ValueLe(b, d)
      ensures ValueLe(a, d)
    {
      ValueLeTrans(a, b, d);
    }
  }

  /** Ascending order of values. */
  function SortValues(vs: seq<Value>): (r: seq<Value>)
    ensures multiset(r) == multiset(vs)
    ensures forall i, j :: 0 <= i < j < |r| ==> ValueLe(r[i], r[j])
  {
    ValueLePreorder();
    var s := Sort(vs, (a: Value, b: Value) => ValueLe(a, b));
    assert SortedBy(s, (a: Value, b: Value) => ValueLe(a, b));
    s
  }

  /** The first of `cols` that the table lacks: the column whose lookup raises. */
  function FirstMissing(cols: seq<string>, columns: seq<string>): (r: Option<string>)
    ensures r.None? <==> forall i :: 0 <= i < |cols| ==> cols[i] in columns
    ensures r.Some? ==> r.value in cols && r.value !in columns
  {
    if |cols| == 0 then None
    else if cols[0] !in columns then Some(cols[0])
    else FirstMissing(cols[1..], columns)
  }

  /** The position of the first missing column: everything before it is present. */
  lemma {:induction false} FirstMissingAt(cols: seq<string>, columns: seq<string>) returns (i: nat)
    requires FirstMissing(cols, columns).Some?
    ensures i < |cols| && cols[i] == FirstMissing(cols, columns).value
    ensures forall i' :: 0 <= i' < i ==> cols[i'] in columns
  {
    if cols[0] !in columns {
      i := 0;
    } else {
      var rest := FirstMissingAt(cols[1..], columns);
      i := rest + 1;
      assert forall i' :: 0 < i' < i ==> cols[i'] == cols[1..][i' - 1];
    }
  }

  /** Python's `value == False`, which 0 and 0.0 also satisfy. */
  predicate IsFalseLike(v: Value) {
    v == Bool(false) || v == Num(0.0)
  }

  /** Python `int(x)` for a float: truncation toward zero. */
  function Trunc(x: real): (t: int)
    ensures x >= 0.0 ==> t as real <= x < t as real + 1.0
    ensures x < 0.0 ==> t as real - 1.0 < x <= t as real
  {
    if x >= 0.0 then x.Floor else -((-x).Floor)
  }

  /** Python `str(v)` for the cells the pipeline renders: numbers as integers. */
  function ValueText(v: Value): string {
    match v
    case Str(s) => s
    case Num(n) => IntToString(Trunc(n))
    case Bool(b) => if b then "True" else "False"
    case Missing => "nan"
  }

  /** Ranks cell kinds for sorting; missing cells go last (`na_position='last'`). */
  function KindRank(v: Value): nat {
    match v
    case Str(_) => 0
    case Num(_) => 1
    case Bool(_) => 2
    case Missing => 3
  }

  /** Ascending order of cells in `sort_values`. */
  predicate ValueLe(a: Value, b: Value) {
    if KindRank(a) != KindRank(b) then KindRank(a) < KindRank(b)
    else match a
      case Str(x) => StrLe(x, b.s)
      case Num(x) => x <= b.n
      case Bool(x) => !x || b.b
      case Missing => true
  }

  /** Descending order of cells in `sort_values(ascending=False)`; missing cells still go last. */
  predicate ValueGe(a: Value, b: Value) {
    if a.Missing? || b.Missing? then b.Missing? else ValueLe(b, a)
  }

  lemma ValueLeTotal(a: Value, b: Value)
    ensures ValueLe(a, b) || ValueLe(b, a)
  {
    if a.Str? && b.Str? {
      StrLeTotal(a.s, b.s);
    }
  }

  lemma ValueLeTrans(a: Value, b: Value, c: Value)
    requires ValueLe(a, b) && ValueLe(b, c)
    ensures ValueLe(a, c)
  {
    if a.Str? && b.Str? && c.Str? {
      StrLeTrans(a.s, b.s, c.s);
    }
  }

  lemma ValueLeAntisym(a: Value, b: Value)
    requires ValueLe(a, b) && ValueLe(b, a)
    ensures a == b
  {
    if a.Str? && b.Str? {
      StrLeAntisym(a.s, b.s);
    }
  }

  lemma ValueGeTotal(a: Value, b: Value)
    ensures ValueGe(a, b) || ValueGe(b, a)
  {
    ValueLeTotal(a, b);
  }

  lemma ValueGeTrans(a: Value, b: Value, c: Value)
    requires ValueGe(a, b) && ValueGe(b, c)
    ensures ValueGe(a, c)
  {
    if !a.Missing? && !b.Missing? && !c.Missing? {
      ValueLeTrans(c, b, a);
    }
  }

  lemma ValueGeAntisym(a: Value, b: Value)
    requires ValueGe(a, b) && ValueGe(b, a)
    ensures a == b
  {
    if !a.Missing? && !b.Missing? {
      ValueLeAntisym(a, b);
    }
  }

  /** Row order of `sort_values(by=c)`. */
  predicate RowLeBy(c: string, a: Row, b: Row) {
    ValueLe(Cell(a, c), Cell(b, c))
  }

  lemma RowLeByPreorder(c: string)
    ensures TotalPreorder((a: Row, b: Row) => RowLeBy(c, a, b))
  {
    forall a: Row, b: Row
      ensures RowLeBy(c, a, b) || RowLeBy(c, b, a)
    {
      ValueLeTotal(Cell(a, c), Cell(b, c));
    }
    forall a: Row, b: Row, d: Row | RowLeBy(c, a, b) && RowLeBy(c, b, d)
      ensures RowLeBy(c, a, d)
    {
      ValueLeTrans(Cell(a, c), Cell(b, c), Cell(d, c));
    }
  }

  /** `sort_values(by=c)` (the tie order of pandas' default sort is not modelled:
      this sort keeps ties in input order). */
  function SortRowsBy(rows: seq<Row>, c: string): (r: seq<Row>)
    ensures multiset(r) == multiset(rows)
    ensures forall i, j :: 0 <= i < j < |r| ==> ValueLe(Cell(r[i], c), Cell(r[j], c))
  {
    RowLeByPreorder(c);
    var s := Sort(rows, (a: Row, b: Row) => RowLeBy(c, a, b));
    assert SortedBy(s, (a: Row, b: Row) => RowLeBy(c, a, b));
    s
  }
}
