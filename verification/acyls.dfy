/** Fatty-acyl descriptors: each chain `FAk` of a lipid is described by its
    carbon count, double-bond count and bond type; `get_FA_df` melts the table
    so that every (lipid, chain) pair becomes one row. */
module Acyls {
  import opened Wrappers
  import opened Seqs
  import opened Strings
  import opened Tables

  /** What `get_FA` returns: a descriptor such as `16:0` or `O-16:0`, NaN when the
      chain is absent, or None when the conversion fails or the bond type is unknown. */
  datatype FaValue = Descriptor(text: string) | NaNValue | NoneValue

  /** Python `int(v)` on a cell, None where it raises. */
  function IntOf(v: Value): (r: Option<int>)
    ensures v.Num? ==> r == Some(Trunc(v.n))
    ensures v.Missing? ==> r.None?
  {
    match v
    case Num(x) => Some(Trunc(x))
    case Bool(b) => Some(if b then 1 else 0)
    case Str(s) => if IsDigitString(s) then Some(ParseNat(s)) else None
    case Missing => None
  }

  /** `str(int(c)) + ':' + str(int(db))`. */
  function ChainText(c: Value, db: Value): Option<string> {
    match (IntOf(c), IntOf(db))
    case (Some(x), Some(y)) => Some(IntToString(x) + ":" + IntToString(y))
    case _ => None
  }

  /** `''.join(re.findall(tag, name)).strip()`: the ether prefix, e.g. `O-`. */
  function EtherPrefix(name: string, tag: string): string
    requires |tag| > 0
  {
    TagPrefix(tag, CountOccurrences(name, tag))
  }

  function TagPrefix(tag: string, k: nat): string {
    Strip(Repeat(tag, k))
  }

  /** `get_FA`. */
  function GetFA(c: Value, db: Value, bondType: Value, name: Value): (r: FaValue)
    ensures r.NaNValue? <==> c.Missing? && db.Missing?
    ensures (c.Missing? || db.Missing?) ==> !r.Descriptor?
    ensures r.Descriptor? ==> bondType in {Str("ESTER"), Str("ETHER_PLASMANYL"), Str("ETHER_PLASMENYL")}
  {
    if c.Missing? && db.Missing? then NaNValue
    else
      match (BondPrefix(bondType, name), ChainText(c, db))
      case (Some(p), Some(t)) => Descriptor(p + t)
      case _ => NoneValue
  }

  /** What a bond type writes before the counts; nothing for an unknown type. */
  function BondPrefix(bondType: Value, name: Value): (p: Option<string>)
    ensures p.Some? ==> bondType in {Str("ESTER"), Str("ETHER_PLASMANYL"), Str("ETHER_PLASMENYL")}
  {
    if bondType == Str("ESTER") then Some("")
    else if bondType == Str("ETHER_PLASMANYL") && name.Str? then Some(EtherPrefix(name.s, " O-"))
    else if bondType == Str("ETHER_PLASMENYL") && name.Str? then Some(EtherPrefix(name.s, " P-"))
    else None
  }

  /** How a `get_FA` result sits in a DataFrame cell: NaN and None are both missing. */
  function FaCell(f: FaValue): Value {
    match f
    case Descriptor(t) => Str(t)
    case _ => Missing
  }

  /** Reads a descriptor `<carbons>:<double bonds>` back. */
  function ParseDescriptor(s: string): Option<(nat, nat)> {
    match IndexOf(s, ":")
    case None => None
    case Some(i) =>
      var a, b := s[..i], s[i + 1..];
      if AllDigits(a) && AllDigits(b) then Some((ParseNat(a), ParseNat(b))) else None
  }

  lemma NoColonInDigits(d: string)
    requires AllDigits(d)
    ensures forall k: nat :: k <= |d| ==> !OccursAt(d, ":", k)
  {
    forall k: nat | k <= |d|
      ensures !OccursAt(d, ":", k)
    {
      if k < |d| {
        assert IsDigit(d[k]);
        assert d[k..k + 1] == [d[k]];
      }
    }
  }

  /** `<a>:<b>` for two digit strings parses back to their values. */
  lemma ParseDescriptorOf(a: string, b: string)
    requires AllDigits(a) && AllDigits(b)
    ensures ParseDescriptor(a + ":" + b) == Some((ParseNat(a), ParseNat(b)))
  {
    var s := a + ":" + b;
    NoColonInDigits(a);
    assert OccursAt(s, ":", |a|);
    forall k: nat | k < |a|
      ensures !OccursAt(s, ":", k)
    {
      assert s[k] == a[k];
      assert IsDigit(a[k]);
      assert s[k..k + 1] == [s[k]];
    }
    assert IndexOf(s, ":") == Some(|a|);
    assert s[..|a|] == a && s[|a| + 1..] == b;
  }

  lemma ChainTextOfCounts(c: nat, db: nat)
    ensures ChainText(Num(c as real), Num(db as real)) == Some(NatToString(c) + ":" + NatToString(db))
  {
    assert Trunc(c as real) == c && Trunc(db as real) == db;
  }

  /** An ester chain's descriptor encodes its carbon and double-bond counts. */
  lemma EsterDescriptorRoundTrip(c: nat, db: nat, name: Value)
    ensures GetFA(Num(c as real), Num(db as real), Str("ESTER"), name).Descriptor?
    ensures ParseDescriptor(GetFA(Num(c as real), Num(db as real), Str("ESTER"), name).text) == Some((c, db))
  {
    var a, b := NatToString(c), NatToString(db);
    ChainTextOfCounts(c, db);
    assert "" + (a + ":" + b) == a + ":" + b;
    ParseDescriptorOf(a, b);
    ParseNatToString(c);
    ParseNatToString(db);
  }

  /** A tag of one leading space, taken once, loses only that space. */
  lemma OneTagPrefix(tag: string)
    requires |tag| > 1 && IsSpace(tag[0])
    requires forall i :: 1 <= i < |tag| ==> !IsSpace(tag[i])
    ensures TagPrefix(tag, 1) == tag[1..]
  {
    assert Repeat(tag, 1) == tag + Repeat(tag, 0) == tag;
    assert TrimStart(tag[1..]) == tag[1..];
    assert TrimStart(tag) == tag[1..];
    var t := tag[1..];
    assert TrimEnd(t) == t by {
      assert !IsSpace(t[|t| - 1]);
    }
  }

  /** A plasmanyl chain of a name holding one ` O-` tag is written `O-<c>:<db>`. */
  lemma PlasmanylDescriptor(c: nat, db: nat, name: string)
    requires CountOccurrences(name, " O-") == 1
    ensures GetFA(Num(c as real), Num(db as real), Str("ETHER_PLASMANYL"), Str(name))
      == Descriptor("O-" + NatToString(c) + ":" + NatToString(db))
  {
    var t := NatToString(c) + ":" + NatToString(db);
    ChainTextOfCounts(c, db);
    PlasmanylBond(name);
    OneTag(name, " O-");
    OTag();
    DescriptorOf(Num(c as real), Num(db as real), Str("ETHER_PLASMANYL"), Str(name), "O-", t);
    JoinAssoc("O-", NatToString(c), ":", NatToString(db));
  }

  /** A plasmenyl chain of a name holding one ` P-` tag is written `P-<c>:<db>`. */
  lemma PlasmenylDescriptor(c: nat, db: nat, name: string)
    requires CountOccurrences(name, " P-") == 1
    ensures GetFA(Num(c as real), Num(db as real), Str("ETHER_PLASMENYL"), Str(name))
      == Descriptor("P-" + NatToString(c) + ":" + NatToString(db))
  {
    var t := NatToString(c) + ":" + NatToString(db);
    ChainTextOfCounts(c, db);
    PlasmenylBond(name);
    OneTag(name, " P-");
    PTag();
    DescriptorOf(Num(c as real), Num(db as real), Str("ETHER_PLASMENYL"), Str(name), "P-", t);
    JoinAssoc("P-", NatToString(c), ":", NatToString(db));
  }

  lemma PlasmanylBond(name: string)
    ensures BondPrefix(Str("ETHER_PLASMANYL"), Str(name)) == Some(EtherPrefix(name, " O-"))
  {
    assert "ETHER_PLASMANYL"[1] != "ESTER"[1];
  }

  lemma PlasmenylBond(name: string)
    ensures BondPrefix(Str("ETHER_PLASMENYL"), Str(name)) == Some(EtherPrefix(name, " P-"))
  {
    assert "ETHER_PLASMENYL"[1] != "ESTER"[1];
    assert "ETHER_PLASMENYL"[11] != "ETHER_PLASMANYL"[11];
  }

  lemma OneTag(name: string, tag: string)
    requires |tag| > 0 && CountOccurrences(name, tag) == 1
    ensures EtherPrefix(name, tag) == TagPrefix(tag, 1)
  {
  }

  lemma OTag()
    ensures TagPrefix(" O-", 1) == "O-"
  {
    OneTagPrefix(" O-");
  }

  lemma PTag()
    ensures TagPrefix(" P-", 1) == "P-"
  {
    OneTagPrefix(" P-");
  }

  lemma JoinAssoc(p: string, a: string, sep: string, b: string)
    ensures p + (a + sep + b) == p + a + sep + b
  {
  }

  lemma DescriptorOf(c: Value, db: Value, bondType: Value, name: Value, p: string, t: string)
    requires !(c.Missing? && db.Missing?)
    requires BondPrefix(bondType, name) == Some(p) && ChainText(c, db) == Some(t)
    ensures GetFA(c, db, bondType, name) == Descriptor(p + t)
  {
  }

  /** A chain with only one of its two counts fails the integer conversion. */
  lemma HalfMissingChainIsNone(c: Value, db: Value, bondType: Value, name: Value)
    requires c.Missing? != db.Missing?
    ensures GetFA(c, db, bondType, name) == NoneValue
  {
  }

  // ---------------------------------------------------------------- get_FA_options

  /** `s.split(' ')[0]`. */
  function FirstToken(s: string): string {
    Split(s, " ")[0]
  }

  predicate MentionsFA(c: string) {
    Contains(c, "FA")
  }

  /** `get_FA_options`: the first word of every column name containing `FA`, each
      once, in order of first appearance. */
  function GetFAOptions(columns: seq<string>): (r: seq<string>)
    ensures Distinct(r)
    ensures forall t :: t in r <==> exists c :: c in columns && MentionsFA(c) && FirstToken(c) == t
  {
    var named := Filter(columns, MentionsFA);
    var tokens := Map(named, FirstToken);
    FilterMembers(columns, MentionsFA);
    DedupMembers(tokens);
    forall c | c in columns && MentionsFA(c)
      ensures FirstToken(c) in tokens
    {
      var m :| 0 <= m < |named| && named[m] == c;
      assert tokens[m] == FirstToken(c);
    }
    forall t | t in tokens
      ensures exists c :: c in columns && MentionsFA(c) && FirstToken(c) == t
    {
      var m :| 0 <= m < |tokens| && tokens[m] == t;
      assert named[m] in named;
    }
    Dedup(tokens)
  }

  /** A pattern whose first character does not occur in `s` does not occur in `s`. */
  lemma NoFirstCharNoMatch(s: string, pat: string)
    requires |pat| > 0 && pat[0] !in s
    ensures !Contains(s, pat)
  {
    forall k: nat | k + |pat| <= |s|
      ensures !OccursAt(s, pat, k)
    {
      assert s[k..k + |pat|][0] == s[k];
    }
  }

  lemma FirstTokenOfChainColumn(chain: string, rest: string)
    requires !Contains(chain, " ")
    ensures FirstToken(chain + " " + rest) == chain
  {
    var s := chain + " " + rest;
    assert OccursAt(s, " ", |chain|);
    var i := IndexOf(s, " ").value;
    if i < |chain| {
      assert s[i..i + 1] == chain[i..i + 1];
      assert OccursAt(chain, " ", i);
    }
    SplitAt(s, " ", i);
  }

  // ---------------------------------------------------------------- get_FA_df

  /** The columns a chain's descriptor is computed from. */
  function ChainInputs(chain: string): seq<string> {
    [chain + " #C", chain + " #DB", chain + " Bond Type", NormalizedName]
  }

  function ChainValue(r: Row, chain: string): Value {
    FaCell(GetFA(Cell(r, chain + " #C"), Cell(r, chain + " #DB"), Cell(r, chain + " Bond Type"), Cell(r, NormalizedName)))
  }

  /** The row after `df[chain] = df.apply(get_FA ...)` for every chain. */
  function WithChains(r: Row, chains: seq<string>): (r': Row)
    ensures forall c :: c !in chains ==> Cell(r', c) == Cell(r, c)
    decreases |chains|
  {
    if |chains| == 0 then r
    else
      var last := chains[|chains| - 1];
      var init := chains[..|chains| - 1];
      assert forall c :: c in init ==> c in chains;
      WithChains(r, init)[last := ChainValue(r, last)]
  }

  lemma WithChainsValue(r: Row, chains: seq<string>, j: nat)
    requires j < |chains| && Distinct(chains)
    requires forall k :: 0 <= k < |chains| ==>
      (chains[k] + " #C" !in chains && chains[k] + " #DB" !in chains
      && chains[k] + " Bond Type" !in chains && NormalizedName !in chains)
    ensures Cell(WithChains(r, chains), chains[j]) == ChainValue(r, chains[j])
    decreases |chains|
  {
    var n := |chains|;
    if j < n - 1 {
      var init := chains[..n - 1];
      assert init[j] == chains[j];
      WithChainsValue(r, init, j);
    }
  }

  /** Columns after adding the chain columns; existing ones are overwritten in place. */
  function AddColumns(columns: seq<string>, chains: seq<string>): (r: seq<string>)
    ensures forall c :: c in columns || c in chains <==> c in r
    ensures !(exists k :: 0 <= k < |chains| && chains[k] in columns) && Distinct(chains) ==> r == columns + chains
    decreases |chains|
  {
    if |chains| == 0 then columns
    else
      var init := AddColumns(columns, chains[..|chains| - 1]);
      var last := chains[|chains| - 1];
      assert chains == chains[..|chains| - 1] + [last];
      if last in init then init else init + [last]
  }

  /** One row of `melt`: the identifier columns, the melted column's name and its value. */
  function MeltRow(r: Row, idVars: seq<string>, v: string): Row {
    (map c | c in idVars && c in r :: r[c])["FAs" := Str(v)]["Acyls" := Cell(r, v)]
  }

  /** `melt`: one block of rows per value column, each block in row order. */
  function Melt(rows: seq<Row>, idVars: seq<string>, valueVars: seq<string>): (r: seq<Row>)
    ensures |r| == |valueVars| * |rows|
    decreases |valueVars|
  {
    if |valueVars| == 0 then []
    else
      var block := Map(rows, (row: Row) => MeltRow(row, idVars, valueVars[0]));
      MulStep(|valueVars|, |rows|);
      block + Melt(rows, idVars, valueVars[1..])
  }

  lemma MulStep(j: nat, n: nat)
    requires j > 0
    ensures j * n == n + (j - 1) * n
  {
  }

  /** Row `i` of block `j` of the melted table is row `i` melted on value column `j`. */
  lemma {:induction false} MeltAt(rows: seq<Row>, idVars: seq<string>, valueVars: seq<string>, j: nat, i: nat)
    requires j < |valueVars| && i < |rows|
    ensures j * |rows| + i < |Melt(rows, idVars, valueVars)|
    ensures Melt(rows, idVars, valueVars)[j * |rows| + i] == MeltRow(rows[i], idVars, valueVars[j])
    decreases |valueVars|
  {
    MulStep(|valueVars|, |rows|);
    if j > 0 {
      MulStep(j, |rows|);
      MeltAt(rows, idVars, valueVars[1..], j - 1, i);
      assert valueVars[1..][j - 1] == valueVars[j];
    }
  }

  predicate MissingInput(columns: seq<string>, chain: string) {
    exists c :: c in ChainInputs(chain) && c !in columns
  }

  predicate MissingChainInput(columns: seq<string>, chains: seq<string>) {
    exists k :: 0 <= k < |chains| && MissingInput(columns, chains[k])
  }

  /** The input columns in the order the row function reads them: chain by chain,
      each chain's inputs in `ChainInputs` order. */
  function AllInputs(chains: seq<string>): (ins: seq<string>)
    ensures |ins| == 4 * |chains|
    ensures forall k, j :: 0 <= k < |chains| && 0 <= j < 4 ==> ins[4 * k + j] == ChainInputs(chains[k])[j]
  {
    if |chains| == 0 then []
    else ChainInputs(chains[0]) + AllInputs(chains[1..])
  }

  /** Some input is missing exactly when the first missing one in reading order exists. */
  lemma AllInputsMissing(columns: seq<string>, chains: seq<string>)
    ensures FirstMissing(AllInputs(chains), columns).Some? <==> MissingChainInput(columns, chains)
  {
    var ins := AllInputs(chains);
    if MissingChainInput(columns, chains) {
      var k :| 0 <= k < |chains| && MissingInput(columns, chains[k]);
      var c :| c in ChainInputs(chains[k]) && c !in columns;
      var j :| 0 <= j < 4 && ChainInputs(chains[k])[j] == c;
      assert ins[4 * k + j] !in columns;
    }
    if FirstMissing(ins, columns).Some? {
      var i := FirstMissingAt(ins, columns);
      var k, j := InputPosition(chains, i);
      assert ChainInputs(chains[k])[j] in ChainInputs(chains[k]);
    }
  }

  /** Position `i` of the reading order is input `j` of chain `k`. */
  lemma InputPosition(chains: seq<string>, i: nat) returns (k: nat, j: nat)
    requires i < |AllInputs(chains)|
    ensures k < |chains| && j < 4 && i == 4 * k + j
    ensures AllInputs(chains)[i] == ChainInputs(chains[k])[j]
  {
    k, j := i / 4, i % 4;
  }

  /** When every input before position `i` is present, so are all inputs of a chain
      that ends by then. */
  lemma InputsBeforePresent(columns: seq<string>, chains: seq<string>, i: nat, k: nat)
    requires i <= |AllInputs(chains)| && forall i' :: 0 <= i' < i ==> AllInputs(chains)[i'] in columns
    requires k < |chains| && 4 * k + 4 <= i
    ensures !MissingInput(columns, chains[k])
  {
    forall j | 0 <= j < 4
      ensures ChainInputs(chains[k])[j] in columns
    {
      assert AllInputs(chains)[4 * k + j] == ChainInputs(chains[k])[j];
    }
  }

  /** The lookup that raises the KeyError: input `j` of chain `k`, after every input of
      the earlier chains and the earlier inputs of chain `k` were found. */
  predicate FirstMissingInput(columns: seq<string>, chains: seq<string>, c: string) {
    exists k, j :: 0 <= k < |chains| && 0 <= j < 4 && c == ChainInputs(chains[k])[j] && c !in columns
      && (forall k' :: 0 <= k' < k ==> !MissingInput(columns, chains[k']))
      && (forall j' :: 0 <= j' < j ==> ChainInputs(chains[k])[j'] in columns)
  }

  lemma AllInputsFirst(columns: seq<string>, chains: seq<string>)
    requires FirstMissing(AllInputs(chains), columns).Some?
    ensures FirstMissingInput(columns, chains, FirstMissing(AllInputs(chains), columns).value)
  {
    var ins := AllInputs(chains);
    var i := FirstMissingAt(ins, columns);
    var k, j := InputPosition(chains, i);
    forall k' | 0 <= k' < k
      ensures !MissingInput(columns, chains[k'])
    {
      InputsBeforePresent(columns, chains, i, k');
    }
    forall j' | 0 <= j' < j
      ensures ChainInputs(chains[k])[j'] in columns
    {
      assert ins[4 * k + j'] == ChainInputs(chains[k])[j'];
    }
  }

  /** A table with the names and a carbon count but no double-bond count for chain
      `FA1`: the row function's second lookup, 'FA1 #DB', is the one that raises. */
  lemma GetFADfSecondLookup(r: Row)
    ensures GetFADf(Table([NormalizedName, "FA1 #C"], [r])) == Err(MissingColumn("FA1 #DB"))
  {
    var columns := [NormalizedName, "FA1 #C"];
    OnlyChainFA1(columns);
    InputsOfFA1();
    var ins := AllInputs(["FA1"]);
    assert ins[0] in columns && ins[1] !in columns;
    assert FirstMissing(ins, columns) == FirstMissing(ins[1..], columns);
  }

  lemma OnlyChainFA1(columns: seq<string>)
    requires |columns| == 2 && columns[0] == NormalizedName && columns[1] == "FA1 #C"
    ensures GetFAOptions(columns) == ["FA1"]
  {
    var chains := GetFAOptions(columns);
    ColumnsOfFA1();
    assert columns[1] in columns;
    forall t | t in chains
      ensures t == "FA1"
    {
      var c :| c in columns && MentionsFA(c) && FirstToken(c) == t;
      InPair(columns, c);
    }
    OnlyElement(chains, "FA1");
  }

  lemma ColumnsOfFA1()
    ensures !MentionsFA(NormalizedName) && MentionsFA("FA1 #C") && FirstToken("FA1 #C") == "FA1"
  {
    NoFirstCharNoMatch(NormalizedName, "FA");
    NoFirstCharNoMatch("FA1", " ");
    assert OccursAt("FA1 #C", "FA", 0);
    FirstTokenOfChainColumn("FA1", "#C");
    assert "FA1" + " " + "#C" == "FA1 #C";
  }

  lemma InputsOfFA1()
    ensures AllInputs(["FA1"]) == ["FA1 #C", "FA1 #DB", "FA1 Bond Type", NormalizedName]
  {
    assert AllInputs(["FA1"]) == ChainInputs("FA1") + AllInputs([]);
    assert "FA1" + " #C" == "FA1 #C";
    assert "FA1" + " #DB" == "FA1 #DB";
    assert "FA1" + " Bond Type" == "FA1 Bond Type";
  }

  /** The melted table `get_FA_df` builds when every input column exists. */
  function MeltPlain(t: Table, chains: seq<string>): (r: Table)
    ensures |r.columns| >= 2 && r.columns[|r.columns| - 2..] == ["FAs", "Acyls"]
  {
    var cols := AddColumns(t.columns, chains);
    var k := |chains|;
    var idVars := if k == 0 || k > |cols| then [] else cols[..|cols| - k];
    var valueVars := if k == 0 || k > |cols| then cols else cols[|cols| - k..];
    Table(idVars + ["FAs", "Acyls"], Melt(ChainRows(t.rows, chains), idVars, valueVars))
  }

  /** The body of `get_FA_df` once the chain names are known. A missing input column
      fails the row function: on rows as the KeyError of the first lookup that
      misses, chain by chain in `AllInputs` order; on a table without rows the
      probe call's KeyError is swallowed, `apply` hands back the empty table itself,
      and storing that table of several columns into the chain's column raises. */
  function MeltChains(t: Table, chains: seq<string>): (r: Result<Table, Failure>)
    ensures r.Err? <==> MissingChainInput(t.columns, chains)
    ensures r.Err? && |t.rows| == 0 ==> r.error == FrameIntoColumn
    ensures r.Err? && |t.rows| > 0 ==> r.error.MissingColumn? && FirstMissingInput(t.columns, chains, r.error.name)
    ensures r.Err? && |t.rows| > 0 ==> r.error == MissingColumn(FirstMissing(AllInputs(chains), t.columns).value)
    ensures r.Ok? ==> r.value == MeltPlain(t, chains)
  {
    AllInputsMissing(t.columns, chains);
    match FirstMissing(AllInputs(chains), t.columns)
    case Some(c) =>
      AllInputsFirst(t.columns, chains);
      if |t.rows| > 0 then Err(MissingColumn(c)) else Err(FrameIntoColumn)
    case None => Ok(MeltPlain(t, chains))
  }

  /** `get_FA_df`: a missing input column of some chain fails, with or without rows.
      Python's `[:-0]` keeps no identifier column when there is no chain. */
  function GetFADf(t: Table): (r: Result<Table, Failure>)
    ensures r.Err? <==> MissingChainInput(t.columns, GetFAOptions(t.columns))
    ensures r.Err? && |t.rows| == 0 ==> r.error == FrameIntoColumn
    ensures r.Err? && |t.rows| > 0 ==> r.error.MissingColumn? && FirstMissingInput(t.columns, GetFAOptions(t.columns), r.error.name)
    ensures r.Err? && |t.rows| > 0 ==> r.error == MissingColumn(FirstMissing(AllInputs(GetFAOptions(t.columns)), t.columns).value)
    ensures r.Ok? ==> |r.value.columns| >= 2 && r.value.columns[|r.value.columns| - 2..] == ["FAs", "Acyls"]
    ensures r.Ok? ==> r.value == MeltPlain(t, GetFAOptions(t.columns))
  {
    MeltChains(t, GetFAOptions(t.columns))
  }

  lemma ChainsHaveNoSpace(columns: seq<string>)
    ensures forall k :: 0 <= k < |GetFAOptions(columns)| ==> !Contains(GetFAOptions(columns)[k], " ")
  {
    var chains := GetFAOptions(columns);
    forall k | 0 <= k < |chains|
      ensures !Contains(chains[k], " ")
    {
      assert chains[k] in chains;
      var c :| c in columns && MentionsFA(c) && FirstToken(c) == chains[k];
      SplitHeadFree(c, " ");
    }
  }

  lemma SpaceDiffers(y: string, s: string, p: nat)
    requires !Contains(y, " ") && OccursAt(s, " ", p)
    ensures y != s
  {
  }

  lemma InputDiffersFromChain(x: string, y: string)
    requires !Contains(y, " ")
    ensures y != x + " #C" && y != x + " #DB" && y != x + " Bond Type" && y != NormalizedName
  {
    assert (x + " #C")[|x|..|x| + 1] == " ";
    SpaceDiffers(y, x + " #C", |x|);
    assert (x + " #DB")[|x|..|x| + 1] == " ";
    SpaceDiffers(y, x + " #DB", |x|);
    assert (x + " Bond Type")[|x|..|x| + 1] == " ";
    SpaceDiffers(y, x + " Bond Type", |x|);
    assert NormalizedName[10..11] == " ";
    SpaceDiffers(y, NormalizedName, 10);
  }

  lemma ChainInputsAreNotChains(chains: seq<string>)
    requires forall k :: 0 <= k < |chains| ==> !Contains(chains[k], " ")
    ensures forall k :: 0 <= k < |chains| ==>
        (chains[k] + " #C" !in chains && chains[k] + " #DB" !in chains
        && chains[k] + " Bond Type" !in chains && NormalizedName !in chains)
  {
    forall k, m | 0 <= k < |chains| && 0 <= m < |chains|
      ensures chains[m] != chains[k] + " #C" && chains[m] != chains[k] + " #DB"
      ensures chains[m] != chains[k] + " Bond Type" && chains[m] != NormalizedName
    {
      InputDiffersFromChain(chains[k], chains[m]);
    }
  }

  /** The rows before melting: every chain column added to every row. */
  function ChainRows(rows: seq<Row>, chains: seq<string>): (r: seq<Row>)
    ensures |r| == |rows|
    ensures forall i :: 0 <= i < |rows| ==> r[i] == WithChains(rows[i], chains)
  {
    Map(rows, (row: Row) => WithChains(row, chains))
  }

  /** With fresh chain names, the melted table keeps the original columns as identifiers. */
  lemma MeltChainsShape(t: Table, chains: seq<string>)
    requires |chains| > 0 && Distinct(chains)
    requires forall k :: 0 <= k < |chains| ==> chains[k] !in t.columns
    ensures MeltPlain(t, chains) == Table(t.columns + ["FAs", "Acyls"], Melt(ChainRows(t.rows, chains), t.columns, chains))
  {
    var cols := AddColumns(t.columns, chains);
    assert cols == t.columns + chains;
    var k := |chains|;
    assert cols[..|cols| - k] == t.columns && cols[|cols| - k..] == chains;
    assert MeltPlain(t, chains).rows == Melt(ChainRows(t.rows, chains), t.columns, chains);
  }

  /** One melted row: the original cells, the chain's name and its descriptor. */
  lemma MeltedRowCells(r: Row, columns: seq<string>, chains: seq<string>, j: nat)
    requires j < |chains| && Distinct(chains)
    requires forall k :: 0 <= k < |chains| ==> !Contains(chains[k], " ") && chains[k] !in columns
    ensures var m := MeltRow(WithChains(r, chains), columns, chains[j]);
      && Cell(m, "FAs") == Str(chains[j])
      && Cell(m, "Acyls") == ChainValue(r, chains[j])
      && forall c :: c in columns && c != "FAs" && c != "Acyls" ==> Cell(m, c) == Cell(r, c)
  {
    ChainInputsAreNotChains(chains);
    WithChainsValue(r, chains, j);
  }

  /** When no chain column exists yet, the melted table has one block per chain:
      row `i` of block `j` keeps every original cell of lipid `i`, names chain `j`
      in `FAs` and holds that chain's `get_FA` descriptor in `Acyls`. */
  lemma MeltChainsBlocks(t: Table, chains: seq<string>, j: nat, i: nat, idx: nat)
    requires Distinct(chains)
    requires forall k :: 0 <= k < |chains| ==> chains[k] !in t.columns
    requires j < |chains| && i < |t.rows| && idx == j * |t.rows| + i
    ensures var r := MeltPlain(t, chains);
      && |r.rows| == |chains| * |t.rows| && idx < |r.rows|
      && r.rows[idx] == MeltRow(WithChains(t.rows[i], chains), t.columns, chains[j])
  {
    var rows := ChainRows(t.rows, chains);
    var melted := Melt(rows, t.columns, chains);
    assert MeltPlain(t, chains).rows == melted by {
      MeltChainsShape(t, chains);
    }
    assert idx < |melted| && melted[idx] == MeltRow(rows[i], t.columns, chains[j]) by {
      MeltAt(rows, t.columns, chains, j, i);
    }
    assert rows[i] == WithChains(t.rows[i], chains);
  }

  /** `get_FA_df` on a table without chain columns: block `j`, row `i` is lipid `i`
      melted on chain `j` (its cells are given by `MeltedRowCells`). */
  lemma GetFADfBlocks(t: Table, j: nat, i: nat, idx: nat)
    requires GetFADf(t).Ok?
    requires forall k :: 0 <= k < |GetFAOptions(t.columns)| ==> GetFAOptions(t.columns)[k] !in t.columns
    requires j < |GetFAOptions(t.columns)| && i < |t.rows| && idx == j * |t.rows| + i
    ensures var chains, r := GetFAOptions(t.columns), GetFADf(t).value;
      && r.columns == t.columns + ["FAs", "Acyls"]
      && |r.rows| == |chains| * |t.rows| && idx < |r.rows|
      && Cell(r.rows[idx], "FAs") == Str(chains[j])
      && Cell(r.rows[idx], "Acyls") == ChainValue(t.rows[i], chains[j])
      && forall c :: c in t.columns && c != "FAs" && c != "Acyls" ==> Cell(r.rows[idx], c) == Cell(t.rows[i], c)
  {
    var chains := GetFAOptions(t.columns);
    ChainsHaveNoSpace(t.columns);
    MeltChainsShape(t, chains);
    MeltChainsBlocks(t, chains, j, i, idx);
    MeltedRowCells(t.rows[i], t.columns, chains, j);
  }
}
