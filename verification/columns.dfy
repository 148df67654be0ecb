/** Cell and column-name helpers: `float_to_int`, `rename_columns` and the
    split of double-bond position lists into numbers and geometries. */
module Columns {
  import opened Wrappers
  import opened Seqs
  import opened Strings
  import opened Tables
  import LipidNames

  // ---------------------------------------------------------------- float_to_int

  /** `float_to_int`: a float becomes an integer by truncation; NaN (`Missing`)
      cannot be converted; every other value is returned as it is. */
  function FloatToInt(v: Value): (r: Result<Value, Failure>)
    ensures r.Err? <==> v.Missing?
    ensures r.Ok? && v.Num? ==> r.value.Num? && r.value.n == r.value.n.Floor as real
    ensures r.Ok? && v.Num? ==> -1.0 < v.n - r.value.n < 1.0
    ensures r.Ok? && v.Num? ==> if v.n >= 0.0 then 0.0 <= r.value.n <= v.n else v.n <= r.value.n <= 0.0
    ensures r.Ok? && !v.Num? ==> r.value == v
  {
    match v
    case Num(x) => Ok(Num(Trunc(x) as real))
    case Missing => Err(NotANumber)
    case _ => Ok(v)
  }

  /** Converting twice is converting once. */
  lemma FloatToIntIdempotent(v: Value)
    requires !v.Missing?
    ensures FloatToInt(FloatToInt(v).value) == FloatToInt(v)
  {
    if v.Num? {
      var t := Trunc(v.n);
      assert (t as real).Floor == t;
      assert Trunc(t as real) == t;
    }
  }

  // ---------------------------------------------------------------- rename_columns

  const Extensions: seq<string> := ["Total #DB", "Total #C", "Total #O", "Ethers", "Acyls"]

  predicate HasExtension(name: string) {
    exists i :: 0 <= i < |Extensions| && StartsWith(name, Extensions[i])
  }

  /** Where `re.search(r'False$|True$', s)` matches. */
  function BoolSuffix(s: string): (p: Option<nat>)
    ensures p.Some? ==> p.value <= |s| && (s[p.value..] == "False" || s[p.value..] == "True")
    ensures p.None? ==> !EndsWith(s, "False") && !EndsWith(s, "True")
  {
    if EndsWith(s, "False") then Some(|s| - 5)
    else if EndsWith(s, "True") then Some(|s| - 4)
    else None
  }

  /** Where `re.search(r': \d+$', s)` matches: the `: ` before the final run of digits. */
  function ColonNumberSuffix(s: string): (p: Option<nat>)
    ensures p.Some? ==> p.value + 3 <= |s| && s[p.value..p.value + 2] == ": " && IsDigitString(s[p.value + 2..])
  {
    var k := LipidNames.DigitRunBefore(s, |s|);
    if k == 0 || k + 2 > |s| || s[|s| - k - 2..|s| - k] != ": " then None
    else
      Some(|s| - k - 2)
  }

  /** Where `re.search(r'\[.*?\]', s)` matches: the first `[` that has a `]` after it. */
  function BracketStart(s: string): (p: Option<nat>)
    ensures p.Some? ==> p.value < |s| && s[p.value] == '['
  {
    match IndexOf(s, "[")
    case None => None
    case Some(i) =>
      assert s[i..i + 1] == "[";
      if Contains(s[i + 1..], "]") then Some(i) else None
  }

  /** `re.sub(r'_y$', '', s)`. */
  function DropYSuffix(s: string): string {
    if EndsWith(s, "_y") then s[..|s| - 2] else s
  }

  /** `rename_columns`: inserts `within <category>` into an upset column name of
      the within-subset analyses; other names are returned as they are. A name
      whose expected pattern is absent fails as `re.search(...).span()` does. */
  function RenameColumns(name: string, category: string): (r: Result<string, Failure>)
    ensures !HasExtension(name) ==> r == Ok(name)
    ensures r.Err? ==> HasExtension(name)
  {
    if !HasExtension(name) then Ok(name)
    else if StartsWith(name, "Ethers") then
      var n2 := ReplaceAll(name, ": ", "");
      match BoolSuffix(n2)
      case None => Err(NoMatch)
      case Some(p) =>
        Ok(n2[..p] + " within " + category + ": " + n2[p..])
    else if StartsWith(name, "Acyls") then
      match BracketStart(name)
      case None => Err(NoMatch)
      case Some(p) => Ok(DropYSuffix(name[..p] + "within " + category + name[p..]))
    else
      match ColonNumberSuffix(name)
      case None => Err(NoMatch)
      case Some(p) => Ok(name[..p] + " within " + category + name[p..])
  }

  lemma StartsWithAppend(s: string, p: string, tail: string)
    requires StartsWith(s, p)
    ensures StartsWith(s + tail, p)
  {
    assert (s + tail)[..|p|] == s[..|p|];
  }

  /** The run of digits at the end of `pre + d` is exactly `d` when `pre` ends in a non-digit. */
  lemma DigitRunOfSuffix(pre: string, d: string)
    requires |pre| > 0 && !IsDigit(pre[|pre| - 1]) && AllDigits(d)
    ensures LipidNames.DigitRunBefore(pre + d, |pre + d|) == |d|
  {
    var s := pre + d;
    var k := LipidNames.DigitRunBefore(s, |s|);
    assert s[|pre| - 1] == pre[|pre| - 1];
    assert forall j :: |pre| <= j < |s| ==> s[j] == d[j - |pre|];
  }

  /** A numeric within-subset column gains `within <category>` before its `: <count>`. */
  lemma RenameTotal(base: string, category: string, k: nat)
    requires StartsWith(base, Extensions[0]) || StartsWith(base, Extensions[1]) || StartsWith(base, Extensions[2])
    ensures RenameColumns(base + ": " + NatToString(k), category)
      == Ok(base + " within " + category + ": " + NatToString(k))
  {
    var d := NatToString(k);
    var name := base + ": " + d;
    TotalName(base, d);
    assert RenameColumns(name, category) == Ok(name[..|base|] + " within " + category + name[|base|..]);
    assert name[..|base|] == base && name[|base|..] == ": " + d;
    assert base + " within " + category + (": " + d) == base + " within " + category + ": " + d;
  }

  /** A `Total` column name with its count: an upset extension, neither the ether
      nor the acyl kind, with its `: <count>` found right after the base. */
  lemma TotalName(base: string, d: string)
    requires StartsWith(base, Extensions[0]) || StartsWith(base, Extensions[1]) || StartsWith(base, Extensions[2])
    requires AllDigits(d) && |d| > 0
    ensures HasExtension(base + ": " + d)
    ensures !StartsWith(base + ": " + d, "Ethers") && !StartsWith(base + ": " + d, "Acyls")
    ensures ColonNumberSuffix(base + ": " + d) == Some(|base|)
  {
    var name := base + ": " + d;
    var e := if StartsWith(base, Extensions[0]) then 0 else if StartsWith(base, Extensions[1]) then 1 else 2;
    StartsWithAppend(base, Extensions[e], ": " + d);
    assert name == base + (": " + d);
    assert HasExtension(name);
    TotalHead(base);
    HeadT(name);
    CountSuffix(base, d);
  }

  lemma TotalHead(base: string)
    requires StartsWith(base, Extensions[0]) || StartsWith(base, Extensions[1]) || StartsWith(base, Extensions[2])
    ensures |base| > 0 && base[0] == 'T'
  {
    var e := if StartsWith(base, Extensions[0]) then 0 else if StartsWith(base, Extensions[1]) then 1 else 2;
    assert base[..|Extensions[e]|][0] == Extensions[e][0];
  }

  /** A name that starts with `T` is neither an ether nor an acyl column. */
  lemma HeadT(name: string)
    requires |name| > 0 && name[0] == 'T'
    ensures !StartsWith(name, "Ethers") && !StartsWith(name, "Acyls")
  {
    assert |name| < 5 || name[..5][0] == 'T';
    assert |name| < 6 || name[..6][0] == 'T';
  }

  lemma CountSuffix(base: string, d: string)
    requires AllDigits(d) && |d| > 0
    ensures ColonNumberSuffix(base + ": " + d) == Some(|base|)
  {
    var name := base + ": " + d;
    DigitRunOfSuffix(base + ": ", d);
    assert name[|name| - |d| - 2..|name| - |d|] == ": ";
  }

  /** Removing every `: ` from `Ethers: True` leaves `EthersTrue`. */
  lemma EthersWithoutColon(flag: string)
    requires flag == "True" || flag == "False"
    ensures ReplaceAll("Ethers: " + flag, ": ", "") == "Ethers" + flag
  {
    var tail := ": " + flag;
    assert "Ethers: " + flag == "Ethers" + tail;
    ReplaceSkipsPrefix("Ethers", tail, ": ", "");
    assert StartsWith(tail, ": ") && tail[2..] == flag;
    assert ReplaceAll(tail, ": ", "") == ReplaceAll(flag, ": ", "");
    ReplaceSkipsPrefix(flag, "", ": ", "");
    assert flag + "" == flag;
  }

  /** The ether column `Ethers: True` (or `False`) becomes `Ethers within <category>: True`. */
  lemma RenameEthers(flag: string, category: string)
    requires flag == "True" || flag == "False"
    ensures RenameColumns("Ethers: " + flag, category) == Ok("Ethers within " + category + ": " + flag)
  {
    var name := "Ethers: " + flag;
    assert StartsWith(name, Extensions[3]);
    assert HasExtension(name);
    EthersWithoutColon(flag);
    var n2 := "Ethers" + flag;
    if flag == "False" {
      assert n2[|n2| - 5..] == flag;
      assert EndsWith(n2, "False");
    } else {
      assert n2[|n2| - 5] == 's';
      assert !EndsWith(n2, "False");
      assert n2[|n2| - 4..] == flag;
      assert EndsWith(n2, "True");
    }
    assert BoolSuffix(n2) == Some(6);
    assert StartsWith(name, "Ethers");
    assert RenameColumns(name, category) == Ok(n2[..6] + " within " + category + ": " + n2[6..]);
    assert n2[..6] == "Ethers" && n2[6..] == flag;
    assert "Ethers" + " within " == "Ethers within ";
  }

  /** An acyl column gains `within <category>` right before its first bracket, and a
      trailing `_y` (left by a merge) is dropped. */
  lemma RenameAcyls(head: string, inner: string, tail: string, category: string)
    requires StartsWith(head, "Acyls") && '[' !in head
    ensures var renamed := head + "within " + category + "[" + inner + "]" + tail;
      RenameColumns(head + "[" + inner + "]" + tail, category) == Ok(DropYSuffix(renamed))
    ensures EndsWith(tail, "_y") ==>
      RenameColumns(head + "[" + inner + "]" + tail, category) == Ok(head + "within " + category + "[" + inner + "]" + tail[..|tail| - 2])
    ensures !EndsWith(tail, "_y") ==>
      RenameColumns(head + "[" + inner + "]" + tail, category) == Ok(head + "within " + category + "[" + inner + "]" + tail)
  {
    var rest := "[" + inner + "]" + tail;
    var name := head + rest;
    assert name == head + "[" + inner + "]" + tail;
    AcylsName(head, rest);
    AcylsBracket(head, inner, tail);
    AcylsBranch(name, |head|, category);
    assert name[..|head|] == head && name[|head|..] == rest;
    var renamed := head + "within " + category + rest;
    assert renamed == head + "within " + category + "[" + inner + "]" + tail;
    AcylsSuffix(head + "within " + category + "[" + inner, tail);
  }

  /** A name that starts with `Acyls` takes the `Acyls` branch of the renaming. */
  lemma AcylsName(head: string, rest: string)
    requires StartsWith(head, "Acyls")
    ensures HasExtension(head + rest) && StartsWith(head + rest, "Acyls") && !StartsWith(head + rest, "Ethers")
  {
    var name := head + rest;
    StartsWithAppend(head, "Acyls", rest);
    assert StartsWith(name, Extensions[4]);
    assert name[0] == 'A' && !StartsWith(name, "Ethers") by {
      assert head[..5][0] == 'A';
      assert |name| < 6 || name[..6][0] == 'A';
    }
  }

  /** The first bracket pair of `head[inner]tail`, with no `[` in `head`, opens right after `head`. */
  lemma AcylsBracket(head: string, inner: string, tail: string)
    requires '[' !in head
    ensures BracketStart(head + "[" + inner + "]" + tail) == Some(|head|)
  {
    var name := head + "[" + inner + "]" + tail;
    assert OccursAt(name, "[", |head|) by {
      assert name[|head|..|head| + 1] == "[";
    }
    forall k: nat | k < |head|
      ensures !OccursAt(name, "[", k)
    {
      assert name[k..k + 1][0] == head[k];
      assert head[k] in head;
    }
    var after := name[|head| + 1..];
    assert OccursAt(after, "]", |inner|) by {
      assert after == inner + "]" + tail;
      assert after[|inner|..|inner| + 1] == "]";
    }
    assert Contains(after, "]");
  }

  lemma AcylsBranch(name: string, p: nat, category: string)
    requires HasExtension(name) && StartsWith(name, "Acyls") && !StartsWith(name, "Ethers")
    requires BracketStart(name) == Some(p)
    ensures p <= |name|
    ensures RenameColumns(name, category) == Ok(DropYSuffix(name[..p] + "within " + category + name[p..]))
  {
  }

  /** A `_y` at the end of the name is a `_y` at the end of what follows the bracket. */
  lemma AcylsSuffix(pre: string, tail: string)
    ensures EndsWith(pre + "]" + tail, "_y") <==> EndsWith(tail, "_y")
    ensures EndsWith(tail, "_y") ==> DropYSuffix(pre + "]" + tail) == pre + "]" + tail[..|tail| - 2]
    ensures !EndsWith(tail, "_y") ==> DropYSuffix(pre + "]" + tail) == pre + "]" + tail
  {
    var s := pre + "]" + tail;
    if |tail| >= 2 {
      assert s[|s| - 2..] == tail[|tail| - 2..];
      assert s[..|s| - 2] == pre + "]" + tail[..|tail| - 2];
    } else if |tail| == 1 {
      assert s[|s| - 2] == ']';
    } else {
      assert s[|s| - 1] == ']';
    }
  }

  // ---------------------------------------------------------------- get_db_position_geometry

  /** A cell of the double-bond position column: a list of position strings such
      as `["4Z", "7Z", "10E"]`, or anything else. */
  datatype PositionCell = PositionList(items: seq<string>) | NotAList

  predicate AllLetters(s: string) {
    forall i :: 0 <= i < |s| ==> IsAsciiLetter(s[i])
  }

  /** Length of the run of digits starting at `from`. */
  function DigitsFrom(p: string, from: nat): (n: nat)
    requires from <= |p|
    ensures from + n <= |p|
    ensures forall j :: from <= j < from + n ==> IsDigit(p[j])
    ensures from + n < |p| ==> !IsDigit(p[from + n])
    decreases |p| - from
  {
    if from < |p| && IsDigit(p[from]) then 1 + DigitsFrom(p, from + 1) else 0
  }

  /** Length of the run of ASCII letters starting at `from`. */
  function LettersFrom(p: string, from: nat): (n: nat)
    requires from <= |p|
    ensures from + n <= |p|
    ensures forall j :: from <= j < from + n ==> IsAsciiLetter(p[j])
    ensures from + n < |p| ==> !IsAsciiLetter(p[from + n])
    decreases |p| - from
  {
    if from < |p| && IsAsciiLetter(p[from]) then 1 + LettersFrom(p, from + 1) else 0
  }

  /** `re.search("([0-9]+)([a-zA-Z]+)", p)` succeeds: a digit followed by a letter somewhere. */
  predicate HasDigitLetter(p: string) {
    exists k :: 0 <= k < |p| - 1 && IsDigit(p[k]) && IsAsciiLetter(p[k + 1])
  }

  /** The groups of `re.match("([0-9]+)([a-zA-Z]+)", p)`, which anchors at the start. */
  function MatchDigitLetter(p: string): (m: Option<(string, string)>)
    ensures m.Some? ==> |m.value.0| > 0 && AllDigits(m.value.0) && |m.value.1| > 0 && AllLetters(m.value.1)
  {
    var n := DigitsFrom(p, 0);
    if n == 0 || n == |p| || !IsAsciiLetter(p[n]) then None
    else
      var l := LettersFrom(p, n);
      Some((p[..n], p[n..n + l]))
  }

  /** `s.lstrip('|')`. */
  function LStripBar(s: string): (r: string)
    ensures |r| > 0 ==> r[0] != '|'
  {
    if |s| > 0 && s[0] == '|' then LStripBar(s[1..]) else s
  }

  /** One position: the three regular expressions tried in turn, each appending
      what it matched; a search that succeeds where the anchored match fails
      raises, as `None.group()` does. */
  function PositionStep(acc: (string, string), p: string): Result<(string, string), Failure> {
    var a :- if HasDigitLetter(p) then
        match MatchDigitLetter(p)
        case None => Err(NoMatch)
        case Some(m) => Ok((acc.0 + "|" + m.0, acc.1 + "|" + m.1))
      else Ok(acc);
    var b :- if |p| > 0 && IsDigit(p[|p| - 1]) then
        if AllDigits(p) then Ok((a.0 + "|" + p, a.1)) else Err(NoMatch)
      else Ok(a);
    var c := if |p| > 0 && AllLetters(p) then (b.0, b.1 + "|" + p) else b;
    Ok((LStripBar(c.0), LStripBar(c.1)))
  }

  function PositionSteps(acc: (string, string), items: seq<string>): Result<(string, string), Failure>
    decreases |items|
  {
    if |items| == 0 then Ok(acc)
    else
      var next :- PositionStep(acc, items[0]);
      PositionSteps(next, items[1..])
  }

  /** `get_db_position_geometry`: position numbers and geometries, each joined by
      `|`, separated by a comma; a cell that is not a list gives None. */
  function GetDbPositionGeometry(cell: PositionCell): (r: Result<Option<string>, Failure>)
    ensures cell.NotAList? ==> r == Ok(None)
    ensures r.Ok? && cell.PositionList? ==> r.value.Some? && Contains(r.value.value, ",")
  {
    match cell
    case NotAList => Ok(None)
    case PositionList(items) =>
      var acc :- PositionSteps(("", ""), items);
      var full := acc.0 + "," + acc.1;
      assert OccursAt(full, ",", |acc.0|);
      Ok(Some(full))
  }

  /** A well-formed position: a number with a geometry (`10Z`), a number alone or a geometry alone. */
  datatype Position = Paired(num: string, geom: string) | NumberOnly(num: string) | GeometryOnly(geom: string)

  predicate ValidPosition(q: Position) {
    (!q.GeometryOnly? ==> |q.num| > 0 && AllDigits(q.num))
    && (!q.NumberOnly? ==> |q.geom| > 0 && AllLetters(q.geom))
  }

  function Render(q: Position): string {
    match q
    case Paired(n, g) => n + g
    case NumberOnly(n) => n
    case GeometryOnly(g) => g
  }

  function Numbers(qs: seq<Position>): seq<string> {
    if |qs| == 0 then [] else (if qs[0].GeometryOnly? then [] else [qs[0].num]) + Numbers(qs[1..])
  }

  function Geometries(qs: seq<Position>): seq<string> {
    if |qs| == 0 then [] else (if qs[0].NumberOnly? then [] else [qs[0].geom]) + Geometries(qs[1..])
  }

  /** A non-empty run of digits or of letters; it never starts with `|`. */
  predicate Part(x: string) {
    |x| > 0 && (AllDigits(x) || AllLetters(x))
  }

  lemma {:induction false} JoinAppend(xs: seq<string>, x: string)
    requires |xs| > 0
    ensures Join(xs + [x], "|") == Join(xs, "|") + "|" + x
    decreases |xs|
  {
    var ys := xs + [x];
    assert ys[0] == xs[0] && ys[1..] == xs[1..] + [x];
    assert Join(ys, "|") == xs[0] + "|" + Join(xs[1..] + [x], "|");
    if |xs| > 1 {
      JoinAppend(xs[1..], x);
      assert Join(xs, "|") == xs[0] + "|" + Join(xs[1..], "|");
    } else {
      assert xs[1..] + [x] == [x];
    }
  }

  lemma JoinFirst(xs: seq<string>)
    requires |xs| > 0 && |xs[0]| > 0
    ensures |Join(xs, "|")| > 0 && Join(xs, "|")[0] == xs[0][0]
  {
  }

  /** Appending one more part to a `|`-joined list and stripping leading bars gives the longer join. */
  lemma AppendPart(xs: seq<string>, x: string)
    requires forall i :: 0 <= i < |xs| ==> Part(xs[i])
    requires Part(x)
    ensures LStripBar(Join(xs, "|") + "|" + x) == Join(xs + [x], "|")
  {
    if |xs| == 0 {
      assert Join(xs, "|") + "|" + x == "|" + x;
      assert ("|" + x)[1..] == x;
      assert x[0] != '|';
      assert xs + [x] == [x];
    } else {
      JoinAppend(xs, x);
      assert Part(xs[0]);
      assert xs[0][0] != '|';
      JoinFirst(xs);
      assert (Join(xs, "|") + "|" + x)[0] == xs[0][0];
    }
  }

  lemma LStripJoin(xs: seq<string>)
    requires forall i :: 0 <= i < |xs| ==> Part(xs[i])
    ensures LStripBar(Join(xs, "|")) == Join(xs, "|")
  {
    if |xs| > 0 {
      assert Part(xs[0]) && xs[0][0] != '|';
      JoinFirst(xs);
    }
  }

  lemma NoDigitLetterIn(s: string)
    requires AllDigits(s) || AllLetters(s)
    ensures !HasDigitLetter(s)
  {
  }

  /** For `10Z`, the anchored match splits off exactly the number and the geometry. */
  lemma PairedMatch(num: string, geom: string)
    requires |num| > 0 && AllDigits(num) && |geom| > 0 && AllLetters(geom)
    ensures HasDigitLetter(num + geom)
    ensures MatchDigitLetter(num + geom) == Some((num, geom))
    ensures !IsDigit((num + geom)[|num + geom| - 1]) && !AllLetters(num + geom)
  {
    var p := num + geom;
    assert forall j :: 0 <= j < |num| ==> p[j] == num[j];
    assert forall j :: |num| <= j < |p| ==> p[j] == geom[j - |num|];
    assert IsDigit(p[|num| - 1]) && IsAsciiLetter(p[|num|]);
    assert DigitsFrom(p, 0) == |num|;
    assert LettersFrom(p, |num|) == |geom|;
    assert p[..|num|] == num && p[|num|..|num| + |geom|] == geom;
    assert !IsAsciiLetter(p[0]);
  }

  lemma PairedStep(ns: seq<string>, gs: seq<string>, num: string, geom: string)
    requires forall i :: 0 <= i < |ns| ==> Part(ns[i])
    requires forall i :: 0 <= i < |gs| ==> Part(gs[i])
    requires |num| > 0 && AllDigits(num) && |geom| > 0 && AllLetters(geom)
    ensures PositionStep((Join(ns, "|"), Join(gs, "|")), num + geom)
      == Ok((Join(ns + [num], "|"), Join(gs + [geom], "|")))
  {
    PairedMatch(num, geom);
    AppendPart(ns, num);
    AppendPart(gs, geom);
  }

  lemma NumberStep(ns: seq<string>, gs: seq<string>, num: string)
    requires forall i :: 0 <= i < |ns| ==> Part(ns[i])
    requires forall i :: 0 <= i < |gs| ==> Part(gs[i])
    requires |num| > 0 && AllDigits(num)
    ensures PositionStep((Join(ns, "|"), Join(gs, "|")), num) == Ok((Join(ns + [num], "|"), Join(gs, "|")))
  {
    NoDigitLetterIn(num);
    assert !IsAsciiLetter(num[0]);
    AppendPart(ns, num);
    LStripJoin(gs);
  }

  lemma GeometryStep(ns: seq<string>, gs: seq<string>, geom: string)
    requires forall i :: 0 <= i < |ns| ==> Part(ns[i])
    requires forall i :: 0 <= i < |gs| ==> Part(gs[i])
    requires |geom| > 0 && AllLetters(geom)
    ensures PositionStep((Join(ns, "|"), Join(gs, "|")), geom) == Ok((Join(ns, "|"), Join(gs + [geom], "|")))
  {
    NoDigitLetterIn(geom);
    assert !IsDigit(geom[|geom| - 1]);
    AppendPart(gs, geom);
    LStripJoin(ns);
  }

  lemma ConcatAssoc<T>(a: seq<T>, b: seq<T>, c: seq<T>)
    ensures (a + b) + c == a + (b + c)
  {
  }

  function NumbersOf(q: Position): seq<string> {
    if q.GeometryOnly? then [] else [q.num]
  }

  function GeometriesOf(q: Position): seq<string> {
    if q.NumberOnly? then [] else [q.geom]
  }

  lemma StepRender(ns: seq<string>, gs: seq<string>, q: Position)
    requires forall i :: 0 <= i < |ns| ==> Part(ns[i])
    requires forall i :: 0 <= i < |gs| ==> Part(gs[i])
    requires ValidPosition(q)
    ensures PositionStep((Join(ns, "|"), Join(gs, "|")), Render(q))
      == Ok((Join(ns + NumbersOf(q), "|"), Join(gs + GeometriesOf(q), "|")))
    ensures forall i :: 0 <= i < |ns + NumbersOf(q)| ==> Part((ns + NumbersOf(q))[i])
    ensures forall i :: 0 <= i < |gs + GeometriesOf(q)| ==> Part((gs + GeometriesOf(q))[i])
  {
    match q
    case Paired(a, b) => PairedStep(ns, gs, a, b);
    case NumberOnly(a) =>
      NumberStep(ns, gs, a);
      assert gs + [] == gs;
    case GeometryOnly(b) =>
      GeometryStep(ns, gs, b);
      assert ns + [] == ns;
  }

  lemma {:induction false} PositionStepsRender(ns: seq<string>, gs: seq<string>, qs: seq<Position>)
    requires forall i :: 0 <= i < |ns| ==> Part(ns[i])
    requires forall i :: 0 <= i < |gs| ==> Part(gs[i])
    requires forall i :: 0 <= i < |qs| ==> ValidPosition(qs[i])
    ensures PositionSteps((Join(ns, "|"), Join(gs, "|")), Map(qs, Render))
      == Ok((Join(ns + Numbers(qs), "|"), Join(gs + Geometries(qs), "|")))
    decreases |qs|
  {
    var items := Map(qs, Render);
    if |qs| == 0 {
      assert ns + [] == ns && gs + [] == gs;
    } else {
      var q := qs[0];
      var ns' := ns + NumbersOf(q);
      var gs' := gs + GeometriesOf(q);
      StepRender(ns, gs, q);
      assert items[0] == Render(q);
      assert items[1..] == Map(qs[1..], Render);
      PositionStepsRender(ns', gs', qs[1..]);
      assert Numbers(qs) == NumbersOf(q) + Numbers(qs[1..]);
      assert Geometries(qs) == GeometriesOf(q) + Geometries(qs[1..]);
      ConcatAssoc(ns, NumbersOf(q), Numbers(qs[1..]));
      ConcatAssoc(gs, GeometriesOf(q), Geometries(qs[1..]));
    }
  }

  /** Well-formed positions are split into their numbers and their geometries, in order:
      `["4Z", "7Z", "15"]` gives `"4|7|15,Z|Z"`. */
  lemma DbPositionGeometrySplits(qs: seq<Position>)
    requires forall i :: 0 <= i < |qs| ==> ValidPosition(qs[i])
    ensures GetDbPositionGeometry(PositionList(Map(qs, Render)))
      == Ok(Some(Join(Numbers(qs), "|") + "," + Join(Geometries(qs), "|")))
  {
    PositionStepsRender([], [], qs);
    assert [] + Numbers(qs) == Numbers(qs) && [] + Geometries(qs) == Geometries(qs);
  }
}
