/** The three renamings of lipid names in `table_for_upset`
    (src/utils/reverse_table_upset.py): letter suffixes that make repeated
    Normalized Names unique (lines 22-24), the temporary chain counters of the acyl
    terms (lines 57-58, 109-110) and the removal of those counters from the final
    'Names' column (line 208). */
module UniqueNames {
  import opened Wrappers
  import opened Seqs
  import opened Strings
  import opened Tables

  const UniqueNameColumn := "Unique Name"

  /** The length of `np.array(list('abcdefghijklmnopqrstuvwxyz'))`. */
  const LetterCount := 26

  /** Element `k` of that array: 'a', 'b', ... */
  function Letter(k: nat): char
    requires k < LetterCount
  {
    (('a' as int) + k) as char
  }

  function EqualTo<T(==)>(x: T): T -> bool {
    y => y == x
  }

  /** `groupby(...).cumcount()`: how many earlier entries equal entry `i`. */
  function Occurrence<T(==)>(xs: seq<T>, i: nat): nat
    requires i < |xs|
  {
    Count(xs[..i], EqualTo(xs[i]))
  }

  /** A later copy of an entry has seen more copies before it. */
  lemma OccurrenceGrows<T>(xs: seq<T>, i: nat, j: nat)
    requires i < j < |xs| && xs[i] == xs[j]
    ensures Occurrence(xs, i) < Occurrence(xs, j)
  {
    var p := EqualTo(xs[j]);
    assert xs[..j] == xs[..i] + xs[i..j];
    FilterConcat(xs[..i], xs[i..j], p);
    assert xs[i..j][0] == xs[i];
    FilterHas(xs[i..j], p, 0);
  }

  predicate NoParen(s: string) {
    '(' !in s
  }

  // ----------------------------------------------------------- letter suffixes

  /** The suffix a name's `k`-th repetition keeps once ' (a)' is removed. */
  function LetterSuffix(k: nat): string
    requires k < LetterCount
  {
    if k == 0 then "" else " (" + [Letter(k)] + ")"
  }

  /** Line 23-24 for one name: `text + ' (' + letters[k] + ')'`, then every
      ' (a)' in the result replaced by nothing. */
  function Lettered(text: string, k: nat): string
    requires k < LetterCount
  {
    ReplaceAll(text + " (" + [Letter(k)] + ")", " (a)", "")
  }

  /** Replacing ' (a)' copies a prefix without '(' unchanged, provided the rest
      does not start with '('. */
  lemma {:induction false} ReplaceParenFree(a: string, rest: string)
    requires NoParen(a)
    requires |rest| > 0 ==> rest[0] != '('
    ensures ReplaceAll(a + rest, " (a)", "") == a + ReplaceAll(rest, " (a)", "")
    decreases |a|
  {
    if |a| > 0 {
      var s := a + rest;
      if |s| >= 4 {
        assert s[1] != '(' by {
          if |a| > 1 { assert s[1] == a[1]; } else { assert s[1] == rest[0]; }
        }
        assert s[..4] != " (a)" by { assert s[..4][1] == s[1]; }
      }
      assert s[1..] == a[1..] + rest;
      assert NoParen(a[1..]) by { assert forall i :: 0 <= i < |a[1..]| ==> a[1..][i] == a[i + 1]; }
      ReplaceParenFree(a[1..], rest);
    } else {
      assert a + rest == rest;
    }
  }

  lemma ReplaceSuffix(l: char)
    ensures ReplaceAll(" (" + [l] + ")", " (a)", "") == if l == 'a' then "" else " (" + [l] + ")"
  {
    var s := " (" + [l] + ")";
    if l == 'a' {
      assert s == " (a)";
      assert s[4..] == "";
    } else {
      assert s[..4] != " (a)" by { assert s[..4][2] == l; }
      assert ReplaceAll(")", " (a)", "") == ")" by { assert ")"[1..] == ""; }
      var t := [l] + ")";
      assert ReplaceAll(t, " (a)", "") == t by { assert t[1..] == ")"; }
      var u := "(" + [l] + ")";
      assert ReplaceAll(u, " (a)", "") == u by { assert u[1..] == t; }
      assert s[1..] == u;
    }
  }

  /** For a name without '(' the first occurrence keeps the bare name and the
      `k`-th repetition gets ' (b)', ' (c)', ... */
  lemma LetteredShape(text: string, k: nat)
    requires k < LetterCount && NoParen(text)
    ensures Lettered(text, k) == text + LetterSuffix(k)
  {
    var rest := " (" + [Letter(k)] + ")";
    assert text + " (" + [Letter(k)] + ")" == text + rest;
    ReplaceParenFree(text, rest);
    ReplaceSuffix(Letter(k));
    assert Letter(0) == 'a';
    assert k > 0 ==> Letter(k) != 'a';
  }

  /** A name without '(' and its letter suffix determine each other. */
  lemma LetteredInjective(a: string, k1: nat, b: string, k2: nat)
    requires k1 < LetterCount && k2 < LetterCount && NoParen(a) && NoParen(b)
    requires a + LetterSuffix(k1) == b + LetterSuffix(k2)
    ensures a == b && k1 == k2
  {
    var w := a + LetterSuffix(k1);
    LetteredMixed(a, k1, b);
    LetteredMixed(b, k2, a);
    if k1 > 0 && k2 > 0 {
      FirstParen(a, " (" + [Letter(k1)] + ")", w);
      FirstParen(b, " (" + [Letter(k2)] + ")", w);
      assert |a| == |b|;
      assert a == w[..|a|] == b;
      assert Letter(k1) == w[|a| + 2] == Letter(k2);
    }
  }

  lemma LetteredMixed(a: string, k: nat, b: string)
    requires k < LetterCount && NoParen(b)
    ensures k > 0 ==> a + LetterSuffix(k) != b
  {
    if k > 0 {
      ParenAfter(a, LetterSuffix(k), b);
    }
  }

  /** In `a + " (" + ...` with no '(' in `a`, the first '(' is right after `a` and a space. */
  lemma FirstParen(a: string, rest: string, w: string)
    requires NoParen(a) && |rest| >= 2 && rest[0] == ' ' && rest[1] == '(' && w == a + rest
    ensures forall i :: 0 <= i < |a| + 1 ==> w[i] != '('
    ensures w[|a| + 1] == '('
  {
    forall i | 0 <= i < |a| + 1
      ensures w[i] != '('
    {
      if i < |a| { assert w[i] == a[i]; } else { assert w[i] == rest[0]; }
    }
  }

  /** A text without '(' is not a text followed by ' (...'. */
  lemma ParenAfter(a: string, rest: string, b: string)
    requires NoParen(b) && |rest| >= 2 && rest[1] == '('
    ensures b != a + rest
  {
  }

  /** Lines 22-24: each Normalized Name with its letter suffix. More than 26 copies
      of one name index past the letter array. */
  function UniqueNames(vs: seq<Value>): (r: Result<seq<string>, Failure>)
    ensures r.Err? <==> exists i :: 0 <= i < |vs| && Occurrence(vs, i) >= LetterCount
    ensures r.Err? ==> r.error == IndexOutOfRange
    ensures r.Ok? ==> |r.value| == |vs|
    ensures r.Ok? ==> forall i :: 0 <= i < |vs| ==> r.value[i] == Lettered(ValueText(vs[i]), Occurrence(vs, i))
  {
    if exists i :: 0 <= i < |vs| && Occurrence(vs, i) >= LetterCount then Err(IndexOutOfRange)
    else Ok(seq(|vs|, i requires 0 <= i < |vs| => Lettered(ValueText(vs[i]), Occurrence(vs, i))))
  }

  /** The first occurrence of a name keeps the name; later ones get the letter of
      their rank. */
  lemma UniqueNameShape(vs: seq<Value>, i: nat)
    requires UniqueNames(vs).Ok? && i < |vs| && NoParen(ValueText(vs[i]))
    ensures Occurrence(vs, i) < LetterCount
    ensures UniqueNames(vs).value[i] == ValueText(vs[i]) + LetterSuffix(Occurrence(vs, i))
    ensures Occurrence(vs, i) == 0 ==> UniqueNames(vs).value[i] == ValueText(vs[i])
  {
    LetteredShape(ValueText(vs[i]), Occurrence(vs, i));
  }

  /** Over text names without '(' the unique names are pairwise different. */
  lemma UniqueNamesDistinct(vs: seq<Value>)
    requires forall i :: 0 <= i < |vs| ==> vs[i].Str? && NoParen(vs[i].s)
    requires UniqueNames(vs).Ok?
    ensures Distinct(UniqueNames(vs).value)
  {
    var u := UniqueNames(vs).value;
    forall i, j | 0 <= i < j < |u|
      ensures u[i] != u[j]
    {
      UniqueNameShape(vs, i);
      UniqueNameShape(vs, j);
      if vs[i] == vs[j] {
        OccurrenceGrows(vs, i, j);
      }
      if u[i] == u[j] {
        LetteredInjective(vs[i].s, Occurrence(vs, i), vs[j].s, Occurrence(vs, j));
      }
    }
  }

  /** A name repeated 27 times cannot be renamed. */
  lemma TooManyCopies(v: Value, vs: seq<Value>)
    requires |vs| == 27 && forall i :: 0 <= i < 27 ==> vs[i] == v
    ensures UniqueNames(vs) == Err(IndexOutOfRange)
  {
    AllEqualCount(vs[..26], v);
    assert Occurrence(vs, 26) >= LetterCount;
  }

  lemma {:induction false} AllEqualCount(xs: seq<Value>, v: Value)
    requires forall i :: 0 <= i < |xs| ==> xs[i] == v
    ensures Count(xs, EqualTo(v)) == |xs|
  {
    if |xs| > 0 {
      AllEqualCount(xs[1..], v);
    }
  }

  /** Line 26: the unique names inserted as the second column. A table whose first
      column is missing cannot take a column at position 1, and inserting an
      existing column fails. */
  function AddUniqueNames(q: Table): (r: Result<Table, Failure>)
    ensures NormalizedName !in q.columns ==> r == Err(MissingColumn(NormalizedName))
    ensures r.Ok? ==> |r.value.rows| == |q.rows|
    ensures r.Ok? ==> r.value.columns == q.columns[..1] + [UniqueNameColumn] + q.columns[1..]
    ensures r.Ok? ==> UniqueNames(Column(q.rows, NormalizedName)).Ok? && forall i :: 0 <= i < |q.rows| ==>
      r.value.rows[i] == q.rows[i][UniqueNameColumn := Str(UniqueNames(Column(q.rows, NormalizedName)).value[i])]
  {
    if NormalizedName !in q.columns then Err(MissingColumn(NormalizedName))
    else
      var names :- UniqueNames(Column(q.rows, NormalizedName));
      if UniqueNameColumn in q.columns then Err(DuplicateColumn(UniqueNameColumn))
      else Ok(Table(q.columns[..1] + [UniqueNameColumn] + q.columns[1..],
        seq(|q.rows|, i requires 0 <= i < |q.rows| => q.rows[i][UniqueNameColumn := Str(names[i])])))
  }

  // ------------------------------------------------------------ chain counters

  /** `(' (' + str(k + 1) + ')').replace(' (1)', '')`: a whole-value replacement,
      so only the first copy loses its counter. */
  function CounterSuffix(k: nat): string {
    if k == 0 then "" else " (" + NatToString(k + 1) + ")"
  }

  /** Lines 57-58: each member name with its counter among equal names. */
  function Counted(names: seq<string>): (r: seq<string>)
    ensures |r| == |names|
  {
    seq(|names|, i requires 0 <= i < |names| => names[i] + CounterSuffix(Occurrence(names, i)))
  }

  lemma DigitsNoParen(n: nat)
    ensures NoParen(NatToString(n))
  {
    var s := NatToString(n);
    assert forall i :: 0 <= i < |s| ==> IsDigit(s[i]);
  }

  lemma {:induction false} NatToStringInjective(m: nat, n: nat)
    requires NatToString(m) == NatToString(n)
    ensures m == n
  {
    ParseNatToString(m);
    ParseNatToString(n);
  }

  /** Two texts without '(' followed by ' (...' tails split a common text at the
      same place. */
  lemma SameParenSplit(a: string, ra: string, b: string, rb: string, w: string)
    requires NoParen(a) && |ra| >= 2 && ra[0] == ' ' && ra[1] == '(' && w == a + ra
    requires NoParen(b) && |rb| >= 2 && rb[0] == ' ' && rb[1] == '(' && w == b + rb
    ensures a == b && ra == rb
  {
    FirstParen(a, ra, w);
    FirstParen(b, rb, w);
    assert |a| == |b|;
    assert a == w[..|a|];
    assert b == w[..|b|];
    assert ra == w[|a|..];
    assert rb == w[|b|..];
  }

  /** A name without '(' and its counter determine each other. */
  lemma CountedInjective(a: string, k1: nat, b: string, k2: nat)
    requires NoParen(a) && NoParen(b)
    requires a + CounterSuffix(k1) == b + CounterSuffix(k2)
    ensures a == b && k1 == k2
  {
    CountedMixed(a, k1, b);
    CountedMixed(b, k2, a);
    if k1 == 0 {
      assert a + CounterSuffix(k1) == a;
    }
    if k2 == 0 {
      assert b + CounterSuffix(k2) == b;
    }
    if k1 > 0 && k2 > 0 {
      var r1 := CounterSuffix(k1);
      var r2 := CounterSuffix(k2);
      SameParenSplit(a, r1, b, r2, a + r1);
      assert NatToString(k1 + 1) == r1[2..|r1| - 1];
      assert NatToString(k2 + 1) == r2[2..|r2| - 1];
      NatToStringInjective(k1 + 1, k2 + 1);
    }
  }

  lemma CountedMixed(a: string, k: nat, b: string)
    requires NoParen(b)
    ensures k > 0 ==> a + CounterSuffix(k) != b
  {
    if k > 0 {
      ParenAfter(a, CounterSuffix(k), b);
    }
  }

  /** Over names without '(' the counted names are pairwise different: every copy
      of a repeated member gets its own row. */
  lemma CountedDistinct(names: seq<string>)
    requires forall i :: 0 <= i < |names| ==> NoParen(names[i])
    ensures Distinct(Counted(names))
  {
    var c := Counted(names);
    forall i, j | 0 <= i < j < |c|
      ensures c[i] != c[j]
    {
      if names[i] == names[j] {
        OccurrenceGrows(names, i, j);
      }
      if c[i] == c[j] {
        CountedInjective(names[i], Occurrence(names, i), names[j], Occurrence(names, j));
      }
    }
  }

  // ----------------------------------------------------------- counter removal

  /** Length of the run of digits of `s` from position `k`. */
  function DigitRun(s: string, k: nat): (n: nat)
    requires k <= |s|
    ensures k + n <= |s|
    decreases |s| - k
  {
    if k < |s| && IsDigit(s[k]) then 1 + DigitRun(s, k + 1) else 0
  }

  /** The text starts with ' ('. */
  predicate OpensCounter(s: string) {
    |s| >= 2 && s[0] == ' ' && s[1] == '('
  }

  /** The pattern ' \(\d+\)' at the start of `s`; its length when it matches. */
  function CounterAt(s: string): (r: Option<nat>)
    ensures r.Some? ==> 4 <= r.value <= |s| && OpensCounter(s)
  {
    if OpensCounter(s) then
      var d := DigitRun(s, 2);
      if d > 0 && 2 + d < |s| && s[2 + d] == ')' then Some(3 + d) else None
    else None
  }

  /** Line 208, `re.sub(r' \(\d+\)', '', x)`: every counter, left to right, removed. */
  function StripCounters(s: string): (r: string)
    ensures |r| <= |s|
    decreases |s|
  {
    if |s| == 0 then ""
    else match CounterAt(s)
      case Some(n) => StripCounters(s[n..])
      case None => [s[0]] + StripCounters(s[1..])
  }

  /** A prefix without '(' is kept as it is, provided the rest does not start with '('. */
  lemma {:induction false} StripParenFree(a: string, rest: string)
    requires NoParen(a)
    requires |rest| > 0 ==> rest[0] != '('
    ensures StripCounters(a + rest) == a + StripCounters(rest)
    decreases |a|
  {
    if |a| > 0 {
      var s := a + rest;
      assert !OpensCounter(s) by {
        if |s| >= 2 {
          if |a| > 1 { assert s[1] == a[1]; } else { assert s[1] == rest[0]; }
        }
      }
      assert s[1..] == a[1..] + rest;
      assert NoParen(a[1..]) by { assert forall i :: 0 <= i < |a[1..]| ==> a[1..][i] == a[i + 1]; }
      StripParenFree(a[1..], rest);
    } else {
      assert a + rest == rest;
    }
  }

  lemma {:induction false} DigitRunOver(s: string, k: nat, d: string)
    requires k + |d| < |s| && s[k..k + |d|] == d && AllDigits(d) && !IsDigit(s[k + |d|])
    ensures DigitRun(s, k) == |d|
    decreases |d|
  {
    if |d| > 0 {
      assert s[k] == d[0];
      assert s[k + 1..k + 1 + |d[1..]|] == d[1..];
      DigitRunOver(s, k + 1, d[1..]);
    }
  }

  /** A counter is removed completely. */
  lemma StripCounter(n: nat)
    ensures StripCounters(" (" + NatToString(n) + ")") == ""
  {
    var d := NatToString(n);
    var s := " (" + d + ")";
    assert s[2..2 + |d|] == d;
    DigitRunOver(s, 2, d);
    assert CounterAt(s) == Some(|s|);
    assert s[|s|..] == "";
  }

  /** A letter suffix is not a counter and survives. */
  lemma StripLetter(l: char)
    requires !IsDigit(l) && l != '('
    ensures StripCounters(" (" + [l] + ")") == " (" + [l] + ")"
  {
    var s := " (" + [l] + ")";
    assert DigitRun(s, 2) == 0;
    assert StripCounters(")") == ")" by { assert ")"[1..] == ""; }
    var t := [l] + ")";
    assert StripCounters(t) == t by { assert t[1..] == ")"; }
    var u := "(" + [l] + ")";
    assert StripCounters(u) == u by { assert u[1..] == t; }
    assert s[1..] == u;
  }

  /** The final clean-up undoes the chain counters of names without '(': the
      counted member becomes its unique name again. */
  lemma StripCounted(a: string, k: nat)
    requires NoParen(a)
    ensures StripCounters(a + CounterSuffix(k)) == a
  {
    if k == 0 {
      assert a + "" == a;
      StripParenFree(a, "");
    } else {
      StripParenFree(a, CounterSuffix(k));
      StripCounter(k + 1);
    }
  }

  /** The final clean-up keeps the letter suffix of a repeated Normalized Name: the
      copies of one lipid stay apart in 'Names'. */
  lemma StripKeepsLetters(a: string, k: nat)
    requires NoParen(a) && k < LetterCount
    ensures StripCounters(a + LetterSuffix(k)) == a + LetterSuffix(k)
  {
    if k == 0 {
      assert a + "" == a;
      StripParenFree(a, "");
    } else {
      StripParenFree(a, LetterSuffix(k));
      StripLetter(Letter(k));
    }
  }
}
