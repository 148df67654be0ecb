/** Lipid-name utilities of the upload step: fixing misdefined oxygen
    suffixes, splitting `original|normalized` entries, ether detection, the
    query/universe match flag and the display order of the prepared table. */
module LipidNames {
  import opened Wrappers
  import opened Seqs
  import opened Strings
  import opened Tables

  // ---------------------------------------------------------------- character_exchange

  /** Length of the run of digits that ends just before position `end`. */
  function DigitRunBefore(s: string, end: nat): (k: nat)
    requires end <= |s|
    ensures k <= end
    ensures forall j :: end - k <= j < end ==> IsDigit(s[j])
    ensures k < end ==> !IsDigit(s[end - k - 1])
    decreases end
  {
    if end > 0 && IsDigit(s[end - 1]) then 1 + DigitRunBefore(s, end - 1) else 0
  }

  /** `name` ends with `;<digits>O` and the `;` sits at position `q`. */
  predicate OxygenSuffixAt(name: string, q: nat) {
    q + 3 <= |name| && name[q] == ';' && name[|name| - 1] == 'O'
    && forall j :: q + 1 <= j < |name| - 1 ==> IsDigit(name[j])
  }

  /** Where `re.search(r';\d+O$', name)` matches: the match is unique when it exists. */
  function OxygenSuffix(name: string): (p: Option<nat>)
    ensures forall q: nat :: OxygenSuffixAt(name, q) <==> p == Some(q)
  {
    if |name| < 3 || name[|name| - 1] != 'O' then None
    else
      var e := |name| - 1;
      var k := DigitRunBefore(name, e);
      forall q: nat | OxygenSuffixAt(name, q)
        ensures k == e - q - 1
      {
      }
      if k == 0 || k == e || name[e - k - 1] != ';' then None else Some(e - k - 1)
  }

  /** `character_exchange` as written: the character it copies after `;` is the
      one at `p + 2`, which is the `O` only when the number has one digit. */
  function CharacterExchange(name: string): (r: string)
    ensures OxygenSuffix(name).None? ==> r == name
    ensures |r| == |name|
  {
    match OxygenSuffix(name)
    case None => name
    case Some(p) => name[..p + 1] + [name[p + 2]] + name[p + 1..|name| - 1]
  }

  /** The evident intent (`;2O -> ;O2` for any number): move the `O` in front of the number. */
  function CharacterExchangeIntended(name: string): (r: string)
    ensures OxygenSuffix(name).None? ==> r == name
    ensures |r| == |name|
    ensures multiset(r) == multiset(name)
  {
    match OxygenSuffix(name)
    case None => name
    case Some(p) =>
      var r := name[..p + 1] + "O" + name[p + 1..|name| - 1];
      assert name == name[..p + 1] + name[p + 1..|name| - 1] + [name[|name| - 1]];
      r
  }

  /** The intended rewrite puts `;O<digits>` at the end, so a second pass changes nothing. */
  lemma {:induction false} CharacterExchangeIntendedIdempotent(name: string)
    ensures CharacterExchangeIntended(CharacterExchangeIntended(name)) == CharacterExchangeIntended(name)
  {
    var p := OxygenSuffix(name);
    if p.Some? {
      var r := CharacterExchangeIntended(name);
      assert IsDigit(r[|r| - 1]);
      assert OxygenSuffix(r).None?;
    }
  }

  /** On a one-digit oxygen count the code as written does what was intended. */
  lemma CharacterExchangeOneDigit(name: string, p: nat)
    requires OxygenSuffixAt(name, p) && p + 3 == |name|
    ensures CharacterExchange(name) == CharacterExchangeIntended(name)
  {
    assert OxygenSuffix(name) == Some(p);
  }

  /** The suffix `;<digits>O` appended to any name is found where it was appended. */
  lemma OxygenSuffixOf(pre: string, d: string)
    requires |d| > 0 && AllDigits(d)
    ensures OxygenSuffix(pre + ";" + d + "O") == Some(|pre|)
  {
    var name := pre + ";" + d + "O";
    assert forall j :: |pre| + 1 <= j < |name| - 1 ==> name[j] == d[j - |pre| - 1];
    assert OxygenSuffixAt(name, |pre|);
  }

  /** With two or more digits the code as written copies the second digit where
      the `O` belongs (`;12O` becomes `;212`), while the intended rewrite gives `;O12`. */
  lemma CharacterExchangeMultiDigit(pre: string, d: string)
    requires |d| >= 2 && AllDigits(d)
    ensures CharacterExchange(pre + ";" + d + "O") == pre + ";" + [d[1]] + d
    ensures CharacterExchangeIntended(pre + ";" + d + "O") == pre + ";O" + d
    ensures CharacterExchange(pre + ";" + d + "O") != CharacterExchangeIntended(pre + ";" + d + "O")
  {
    var name := pre + ";" + d + "O";
    OxygenSuffixOf(pre, d);
    var p := |pre|;
    assert name[..p + 1] == pre + ";";
    assert name[p + 2] == d[1];
    assert name[p + 1..|name| - 1] == d;
    var r := CharacterExchange(name);
    assert r[p + 1] == d[1];
    assert CharacterExchangeIntended(name)[p + 1] == 'O';
  }

  // ---------------------------------------------------------------- separate_lipids, prepare_for_parsing

  /** `separate_lipids`: the second `|`-separated field, or the whole text without `|`. */
  function SeparateLipids(s: string): (r: string)
    ensures !Contains(r, "|")
    ensures !Contains(s, "|") ==> r == s
  {
    var parts := Split(s, "|");
    if |parts| >= 2 then
      match IndexOf(s, "|")
      case Some(i) =>
        SplitAt(s, "|", i);
        SplitHeadFree(s[i + 1..], "|");
        parts[1]
    else parts[0]
  }

  /** An `original|normalized` pair gives back its second half. */
  lemma SeparateLipidsPair(a: string, b: string)
    requires !Contains(a, "|") && !Contains(b, "|")
    ensures SeparateLipids(a + "|" + b) == b
  {
    var s := a + "|" + b;
    assert OccursAt(s, "|", |a|);
    var i := IndexOf(s, "|").value;
    if i < |a| {
      assert a[i..i + 1] == s[i..i + 1];
      assert OccursAt(a, "|", i);
    }
    assert i == |a|;
    SplitAt(s, "|", i);
    assert s[i + 1..] == b;
  }

  predicate KeptForParsing(t: string) {
    t != "" && t != "Original name"
  }

  /** A cell that yields a name to parse: a text whose separated entry is kept. */
  function ParsedKept(v: Value): bool {
    v.Str? && KeptForParsing(SeparateLipids(v.s))
  }

  /** The separated entry of a text cell. */
  function ParsedText(v: Value): string {
    if v.Str? then SeparateLipids(v.s) else ""
  }

  /** `prepare_for_parsing` on the first column: missing cells dropped, each entry
      separated, empty entries and the literal header `Original name` dropped.
      A non-text cell fails, as `separate_lipids` does on it. */
  function PrepareForParsing(col: seq<Value>): (r: Result<seq<string>, Failure>)
    ensures r.Err? <==> exists i :: 0 <= i < |col| && !col[i].Str? && !col[i].Missing?
    ensures r.Ok? ==> |r.value| <= |col|
    ensures r.Ok? ==> forall j :: 0 <= j < |r.value| ==>
      KeptForParsing(r.value[j]) && !Contains(r.value[j], "|")
    ensures r.Ok? ==> forall i :: 0 <= i < |col| && col[i].Str? && KeptForParsing(SeparateLipids(col[i].s)) ==>
      SeparateLipids(col[i].s) in r.value
  {
    if |col| == 0 then Ok([])
    else
      var rest := PrepareForParsing(col[1..]);
      assert forall i :: 1 <= i < |col| ==> col[i] == col[1..][i - 1];
      match col[0]
      case Missing => rest
      case Str(s) =>
        if rest.Err? then rest
        else
          var t := SeparateLipids(s);
          Ok(if KeptForParsing(t) then [t] + rest.value else rest.value)
      case _ => Err(NotText)
  }

  /** The entries come one per qualifying cell and in column order: the result is the
      separated entry of exactly the text cells that yield one, at increasing positions. */
  lemma {:induction false} PrepareForParsingInOrder(col: seq<Value>)
    requires PrepareForParsing(col).Ok?
    ensures PicksAt(PrepareForParsing(col).value, col, ParsedKept, ParsedText, Positions(col, ParsedKept))
    decreases |col|
  {
    if |col| > 0 {
      var rest := PrepareForParsing(col[1..]);
      assert rest.Ok?;
      PrepareForParsingInOrder(col[1..]);
      PicksStep(col, ParsedKept, ParsedText, rest.value);
    }
  }

  // ---------------------------------------------------------------- find_ethers

  /** An ether tag `' O-'` or `' P-'` begins at `k`. */
  predicate EtherTagAt(s: string, k: nat) {
    OccursAt(s, " O-", k) || OccursAt(s, " P-", k)
  }

  /** `re.findall(r' O-| P-', s)` from position `k`: the number of tags found scanning left to right. */
  function EtherScan(s: string, k: nat): nat
    decreases |s| - k
  {
    if k >= |s| then 0
    else if EtherTagAt(s, k) then 1 + EtherScan(s, k + 3)
    else EtherScan(s, k + 1)
  }

  /** The number of positions at or after `k` where a tag begins. */
  function EtherPositions(s: string, k: nat): nat
    decreases |s| - k
  {
    if k >= |s| then 0 else (if EtherTagAt(s, k) then 1 else 0) + EtherPositions(s, k + 1)
  }

  /** Tags cannot overlap, so scanning finds every tag position. */
  lemma {:induction false} EtherScanCountsPositions(s: string, k: nat)
    ensures EtherScan(s, k) == EtherPositions(s, k)
    decreases |s| - k
  {
    if k < |s| {
      if EtherTagAt(s, k) {
        assert s[k + 1] == s[k..k + 3][1];
        assert s[k + 2] == s[k..k + 3][2];
        assert !EtherTagAt(s, k + 1) && !EtherTagAt(s, k + 2);
        EtherScanCountsPositions(s, k + 3);
        assert EtherPositions(s, k + 1) == EtherPositions(s, k + 3);
      } else {
        EtherScanCountsPositions(s, k + 1);
      }
    }
  }

  /** `find_ethers`: exactly one ether tag in the name; a non-text name fails. */
  function FindEthers(name: Value): (r: Result<bool, Failure>)
    ensures r.Err? <==> !name.Str?
    ensures r.Ok? ==> (r.value <==> EtherPositions(name.s, 0) == 1)
  {
    match name
    case Str(s) =>
      EtherScanCountsPositions(s, 0);
      Ok(EtherScan(s, 0) == 1)
    case _ => Err(UndefinedName)
  }

  // ---------------------------------------------------------------- find_matches

  /** Names that never count as matches. */
  predicate IsException(v: Value) {
    v == Str("UNDEFINED") || v == Str("")
  }

  function MatchableNames(t: Table): (names: seq<Value>)
    ensures forall v :: v in names <==> v in Column(t.rows, NormalizedName) && !IsException(v)
  {
    var keep := (v: Value) => !IsException(v);
    FilterMembers(Column(t.rows, NormalizedName), keep);
    Filter(Column(t.rows, NormalizedName), keep)
  }

  function WithColumn(columns: seq<string>, c: string): seq<string> {
    if c in columns then columns else columns + [c]
  }

  function FlagRow(r: Row, others: seq<Value>): Row {
    r["T/F" := Str(if Cell(r, NormalizedName) in others then "True" else "False")]
  }

  /** Marks each row of `t` with `T/F` = whether its normalized name is among `others`. */
  function Flag(t: Table, others: seq<Value>): (r: Table)
    ensures r.columns == WithColumn(t.columns, "T/F")
    ensures |r.rows| == |t.rows|
    ensures forall i :: 0 <= i < |t.rows| ==> r.rows[i] == FlagRow(t.rows[i], others)
  {
    Table(WithColumn(t.columns, "T/F"), Map(t.rows, (row: Row) => FlagRow(row, others)))
  }

  /** `find_matches`: a row is flagged `"True"` exactly when its normalized name occurs
      in the other table and is neither `UNDEFINED` nor empty; nothing else changes. */
  function FindMatches(query: Table, universe: Table): (r: Result<(Table, Table), Failure>)
    ensures r.Err? <==> NormalizedName !in query.columns || NormalizedName !in universe.columns
    ensures r.Ok? ==> |r.value.0.rows| == |query.rows| && |r.value.1.rows| == |universe.rows|
    ensures r.Ok? ==> forall i :: 0 <= i < |query.rows| ==>
      var n := Cell(query.rows[i], NormalizedName);
      && r.value.0.rows[i] == query.rows[i]["T/F" := Cell(r.value.0.rows[i], "T/F")]
      && (Cell(r.value.0.rows[i], "T/F") == Str("True") <==> !IsException(n) && n in Column(universe.rows, NormalizedName))
      && (Cell(r.value.0.rows[i], "T/F") == Str("False") <==> !(!IsException(n) && n in Column(universe.rows, NormalizedName)))
    ensures r.Ok? ==> forall i :: 0 <= i < |universe.rows| ==>
      var n := Cell(universe.rows[i], NormalizedName);
      && r.value.1.rows[i] == universe.rows[i]["T/F" := Cell(r.value.1.rows[i], "T/F")]
      && (Cell(r.value.1.rows[i], "T/F") == Str("True") <==> !IsException(n) && n in Column(query.rows, NormalizedName))
  {
    if NormalizedName !in query.columns then Err(MissingColumn(NormalizedName))
    else if NormalizedName !in universe.columns then Err(MissingColumn(NormalizedName))
    else Ok((Flag(query, MatchableNames(universe)), Flag(universe, MatchableNames(query))))
  }

  // ---------------------------------------------------------------- get_prepared_table_data

  predicate IsNormalized(r: Row) {
    Cell(r, NormalizedName) != Str("") && Cell(r, NormalizedName) != Str("UNDEFINED")
  }

  /** Order of the normalized part: `T/F` descending, then normalized name ascending. */
  predicate PreparedLe(a: Row, b: Row) {
    var ta, tb := Cell(a, "T/F"), Cell(b, "T/F");
    (ta != tb && ValueGe(ta, tb)) || (ta == tb && ValueLe(Cell(a, NormalizedName), Cell(b, NormalizedName)))
  }

  lemma PreparedLePreorder()
    ensures TotalPreorder(PreparedLe)
  {
    forall a: Row, b: Row
      ensures PreparedLe(a, b) || PreparedLe(b, a)
    {
      ValueGeTotal(Cell(a, "T/F"), Cell(b, "T/F"));
      ValueLeTotal(Cell(a, NormalizedName), Cell(b, NormalizedName));
    }
    forall a: Row, b: Row, c: Row | PreparedLe(a, b) && PreparedLe(b, c)
      ensures PreparedLe(a, c)
    {
      var ta, tb, tc := Cell(a, "T/F"), Cell(b, "T/F"), Cell(c, "T/F");
      if ta != tb && tb != tc {
        ValueGeTrans(ta, tb, tc);
        if ta == tc {
          ValueGeAntisym(ta, tb);
        }
      } else if ta == tb && tb == tc {
        ValueLeTrans(Cell(a, NormalizedName), Cell(b, NormalizedName), Cell(c, NormalizedName));
      }
    }
  }

  /** `get_prepared_table_data`: normalized rows first, ordered by match flag (True
      first) and name; then the rows whose normalized name is empty or `UNDEFINED`,
      ordered by original name. The rows are a permutation of the input. */
  function GetPreparedTableData(t: Table): (r: Table)
    ensures r.columns == t.columns
    ensures multiset(r.rows) == multiset(t.rows)
    ensures forall i, j :: 0 <= i < j < |r.rows| && !IsNormalized(r.rows[i]) ==> !IsNormalized(r.rows[j])
    ensures forall i, j :: 0 <= i < j < |r.rows| && IsNormalized(r.rows[j]) ==> PreparedLe(r.rows[i], r.rows[j])
    ensures forall i, j :: 0 <= i < j < |r.rows| && !IsNormalized(r.rows[i]) ==>
      ValueLe(Cell(r.rows[i], OriginalName), Cell(r.rows[j], OriginalName))
  {
    var a := Filter(t.rows, IsNormalized);
    var b := Filter(t.rows, Complement(IsNormalized));
    PreparedLePreorder();
    var sa := Sort(a, PreparedLe);
    var sb := SortRowsBy(b, OriginalName);
    PermutationKeeps(a, sa, IsNormalized);
    assert forall i :: 0 <= i < |b| ==> Complement(IsNormalized)(b[i]);
    PermutationKeeps(b, sb, Complement(IsNormalized));
    PartitionMultiset(t.rows, IsNormalized);
    PreparedConcat(sa, sb);
    Table(t.columns, sa + sb)
  }

  lemma PreparedConcat(sa: seq<Row>, sb: seq<Row>)
    requires forall i :: 0 <= i < |sa| ==> IsNormalized(sa[i])
    requires forall i :: 0 <= i < |sb| ==> Complement(IsNormalized)(sb[i])
    requires SortedBy(sa, PreparedLe)
    requires forall i, j :: 0 <= i < j < |sb| ==> ValueLe(Cell(sb[i], OriginalName), Cell(sb[j], OriginalName))
    ensures var rows := sa + sb;
      && (forall i, j :: 0 <= i < j < |rows| && !IsNormalized(rows[i]) ==> !IsNormalized(rows[j]))
      && (forall i, j :: 0 <= i < j < |rows| && IsNormalized(rows[j]) ==> PreparedLe(rows[i], rows[j]))
      && (forall i, j :: 0 <= i < j < |rows| && !IsNormalized(rows[i]) ==>
           ValueLe(Cell(rows[i], OriginalName), Cell(rows[j], OriginalName)))
  {
    var rows := sa + sb;
    forall i | 0 <= i < |sb|
      ensures !IsNormalized(sb[i])
    {
      assert Complement(IsNormalized)(sb[i]);
    }
    forall i | 0 <= i < |rows|
      ensures IsNormalized(rows[i]) <==> i < |sa|
    {
      if i >= |sa| {
        assert rows[i] == sb[i - |sa|];
      }
    }
    forall i, j | 0 <= i < j < |rows| && !IsNormalized(rows[i])
      ensures ValueLe(Cell(rows[i], OriginalName), Cell(rows[j], OriginalName))
    {
      assert rows[i] == sb[i - |sa|] && rows[j] == sb[j - |sa|];
    }
  }
}
