/** The lipidome tree: every lipid's chain of shorthand levels is inserted into a
    trie (a nested `defaultdict`), the trie becomes nested clades under the root
    'Lipidome', and each clade is annotated by its depth and by the category it
    descends from. The colour names of the circular plot come from a digit
    substitution. */
module Phylo {
  import opened Wrappers
  import opened Seqs
  import opened Strings
  import opened Tables

  // ------------------------------------------------------------------ the trie

  /** A trie node: its key and its children in insertion order (dict order). */
  datatype Node = Node(key: Value, children: seq<Node>)

  function Keys(ns: seq<Node>): (ks: seq<Value>)
    ensures |ks| == |ns|
    ensures forall i :: 0 <= i < |ns| ==> ks[i] == ns[i].key
  {
    seq(|ns|, i requires 0 <= i < |ns| => ns[i].key)
  }

  /** The position of the child with key `k`, if any. */
  function FindKey(ns: seq<Node>, k: Value): (r: Option<nat>)
    ensures r.Some? ==> r.value < |ns| && ns[r.value].key == k
    ensures r.None? <==> k !in Keys(ns)
  {
    if |ns| == 0 then None
    else if ns[0].key == k then Some(0)
    else match FindKey(ns[1..], k)
      case None =>
        assert Keys(ns) == [ns[0].key] + Keys(ns[1..]);
        None
      case Some(i) => Some(i + 1)
  }

  /** Every level holds each key at most once. */
  predicate WellFormed(ns: seq<Node>)
    decreases ns
  {
    && Distinct(Keys(ns))
    && forall i :: 0 <= i < |ns| ==> WellFormed(ns[i].children)
  }

  /** A fresh branch spelling out `path`. */
  function Chain(path: seq<Value>): (n: Node)
    requires |path| > 0
    ensures n.key == path[0]
    decreases |path|
  {
    Node(path[0], if |path| == 1 then [] else [Chain(path[1..])])
  }

  /** Walking `T[k1][k2]...` down the nested `defaultdict`: existing keys are
      followed and missing ones are created, appended after their siblings. */
  function Insert(ns: seq<Node>, path: seq<Value>): (r: seq<Node>)
    ensures |path| == 0 ==> r == ns
    ensures |path| > 0 && path[0] in Keys(ns) ==> Keys(r) == Keys(ns)
    ensures |path| > 0 && path[0] !in Keys(ns) ==> Keys(r) == Keys(ns) + [path[0]]
    decreases |path|
  {
    if |path| == 0 then ns
    else match FindKey(ns, path[0])
      case None => ns + [Chain(path)]
      case Some(i) => ns[i := Node(path[0], Insert(ns[i].children, path[1..]))]
  }

  /** `path` can be walked without creating a node. */
  predicate Contains(ns: seq<Node>, path: seq<Value>)
    decreases |path|
  {
    |path| == 0 ||
    match FindKey(ns, path[0])
    case None => false
    case Some(i) => Contains(ns[i].children, path[1..])
  }

  lemma {:induction false} ChainContains(path: seq<Value>)
    requires |path| > 0
    ensures Contains([Chain(path)], path)
    decreases |path|
  {
    assert FindKey([Chain(path)], path[0]) == Some(0);
    if |path| > 1 {
      ChainContains(path[1..]);
    }
  }

  /** After an insertion the path is present. */
  lemma {:induction false} InsertContains(ns: seq<Node>, path: seq<Value>)
    ensures Contains(Insert(ns, path), path)
    decreases |path|
  {
    if |path| > 0 {
      var r := Insert(ns, path);
      match FindKey(ns, path[0])
      case None =>
        ChainContains(path);
        assert FindKey(r, path[0]) == Some(|ns|) by {
          FindKeyAppend(ns, Chain(path), path[0]);
        }
        assert r[|ns|] == Chain(path);
        var c := Chain(path);
        if |path| > 1 {
          assert FindKey([c], path[0]) == Some(0);
        }
      case Some(i) =>
        InsertContains(ns[i].children, path[1..]);
        FindKeyUpdate(ns, i, Node(path[0], Insert(ns[i].children, path[1..])), path[0]);
    }
  }

  lemma FindKeyAppend(ns: seq<Node>, n: Node, k: Value)
    requires k !in Keys(ns) && n.key == k
    ensures FindKey(ns + [n], k) == Some(|ns|)
  {
    if |ns| > 0 {
      assert (ns + [n])[1..] == ns[1..] + [n];
      assert Keys(ns) == [ns[0].key] + Keys(ns[1..]);
      FindKeyAppend(ns[1..], n, k);
    }
  }

  lemma FindKeyUpdate(ns: seq<Node>, i: nat, n: Node, k: Value)
    requires FindKey(ns, k) == Some(i) && n.key == k
    ensures FindKey(ns[i := n], k) == Some(i)
  {
    if i > 0 {
      assert ns[i := n][1..] == ns[1..][i - 1 := n];
      FindKeyUpdate(ns[1..], i - 1, n, k);
    }
  }

  /** An insertion keeps every path already present. */
  lemma {:induction false} InsertKeeps(ns: seq<Node>, p: seq<Value>, q: seq<Value>)
    requires Contains(ns, p)
    ensures Contains(Insert(ns, q), p)
    decreases |q|
  {
    if |p| > 0 && |q| > 0 {
      var i := FindKey(ns, p[0]).value;
      var r := Insert(ns, q);
      match FindKey(ns, q[0])
      case None =>
        FindKeyPrefix(ns, Chain(q), p[0], i);
        assert r[i] == ns[i];
      case Some(j) =>
        FindKeyKeys(ns, r, p[0]);
        if i == j {
          InsertKeeps(ns[i].children, p[1..], q[1..]);
        } else {
          assert r[i] == ns[i];
        }
    }
  }

  /** Appending a node leaves the first position of a present key unchanged. */
  lemma FindKeyPrefix(ns: seq<Node>, n: Node, k: Value, i: nat)
    requires FindKey(ns, k) == Some(i)
    ensures FindKey(ns + [n], k) == Some(i)
  {
    if i > 0 {
      assert (ns + [n])[1..] == ns[1..] + [n];
      FindKeyPrefix(ns[1..], n, k, i - 1);
    }
  }

  /** The search only looks at the keys. */
  lemma FindKeyKeys(ns: seq<Node>, ms: seq<Node>, k: Value)
    requires Keys(ns) == Keys(ms)
    ensures FindKey(ns, k) == FindKey(ms, k)
  {
    if |ns| > 0 {
      assert ns[0].key == Keys(ns)[0] == ms[0].key;
      assert Keys(ns[1..]) == Keys(ns)[1..];
      assert Keys(ms[1..]) == Keys(ms)[1..];
      FindKeyKeys(ns[1..], ms[1..], k);
    }
  }

  /** Re-inserting a path that is already present adds no node. */
  lemma {:induction false} InsertExisting(ns: seq<Node>, path: seq<Value>)
    requires Contains(ns, path)
    ensures Insert(ns, path) == ns
    decreases |path|
  {
    if |path| > 0 {
      var i := FindKey(ns, path[0]).value;
      InsertExisting(ns[i].children, path[1..]);
      assert Node(path[0], ns[i].children) == ns[i];
    }
  }

  /** Inserting a path twice is inserting it once. */
  lemma InsertIdempotent(ns: seq<Node>, path: seq<Value>)
    ensures Insert(Insert(ns, path), path) == Insert(ns, path)
  {
    InsertContains(ns, path);
    InsertExisting(Insert(ns, path), path);
  }

  lemma {:induction false} ChainWellFormed(path: seq<Value>)
    requires |path| > 0
    ensures WellFormed([Chain(path)])
    decreases |path|
  {
    if |path| > 1 {
      ChainWellFormed(path[1..]);
    }
  }

  /** Insertion keeps every level free of duplicate keys. */
  lemma {:induction false} InsertWellFormed(ns: seq<Node>, path: seq<Value>)
    requires WellFormed(ns)
    ensures WellFormed(Insert(ns, path))
    decreases |path|
  {
    if |path| > 0 {
      var r := Insert(ns, path);
      match FindKey(ns, path[0])
      case None =>
        ChainWellFormed(path);
        assert forall i :: 0 <= i < |r| ==> WellFormed(r[i].children) by {
          forall i | 0 <= i < |r|
            ensures WellFormed(r[i].children)
          {
            if i == |ns| {
              assert r[i] == Chain(path);
              assert WellFormed([Chain(path)]);
              assert [Chain(path)][0] == Chain(path);
            } else {
              assert r[i] == ns[i];
            }
          }
        }
      case Some(i) =>
        InsertWellFormed(ns[i].children, path[1..]);
    }
  }

  // --------------------------------------------------------- rows to the trie

  const CategoryLevel := "Lipid Shorthand CATEGORY"

  /** The finer shorthand columns, in the order they are walked. */
  const FinerLevels := ["Lipid Shorthand CLASS", "Lipid Shorthand SPECIES",
    "Lipid Shorthand MOLECULAR_SPECIES", "Lipid Shorthand SN_POSITION",
    "Lipid Shorthand STRUCTURE_DEFINED", "Lipid Shorthand FULL_STRUCTURE",
    "Lipid Shorthand COMPLETE_STRUCTURE"]

  /** Cells that are Python floats (NaN among them) are skipped, not ended at. */
  predicate IsFloat(v: Value) {
    v.Num? || v.Missing?
  }

  /** The finer column holds a key of the row: its cell is not a float. */
  function FinerKeyIn(r: Row): string -> bool {
    (c: string) => !IsFloat(Cell(r, c))
  }

  function CellIn(r: Row): string -> Value {
    (c: string) => Cell(r, c)
  }

  /** The keys one row walks: its category, then its finer non-float cells. */
  function RowPath(r: Row): (p: seq<Value>)
    ensures 1 <= |p| <= 8 && p[0] == Cell(r, CategoryLevel)
    ensures forall i :: 1 <= i < |p| ==> !IsFloat(p[i])
  {
    var finer := Pick(FinerLevels, FinerKeyIn(r), CellIn(r));
    PickedKeys(FinerLevels, r, finer);
    [Cell(r, CategoryLevel)] + finer
  }

  lemma PickedKeys(levels: seq<string>, r: Row, finer: seq<Value>)
    requires PicksAt(finer, levels, FinerKeyIn(r), CellIn(r), Positions(levels, FinerKeyIn(r)))
    ensures forall i :: 0 <= i < |finer| ==> !IsFloat(finer[i])
  {
    var idx := Positions(levels, FinerKeyIn(r));
    forall i | 0 <= i < |finer|
      ensures !IsFloat(finer[i])
    {
      assert FinerKeyIn(r)(levels[idx[i]]);
    }
  }

  /** After the category, a row's path holds the cells of the finer levels that are not
      floats, each once, in column order: a finer cell that is text is on the path. */
  lemma RowPathKeys(r: Row)
    ensures var p := RowPath(r);
      && PicksAt(p[1..], FinerLevels, FinerKeyIn(r), CellIn(r), Positions(FinerLevels, FinerKeyIn(r)))
      && forall i :: 0 <= i < |FinerLevels| && !IsFloat(Cell(r, FinerLevels[i])) ==> Cell(r, FinerLevels[i]) in p[1..]
  {
    var p := RowPath(r);
    var finer := Pick(FinerLevels, FinerKeyIn(r), CellIn(r));
    assert p[1..] == finer;
    PickedPresent(FinerLevels, r, finer);
  }

  lemma PickedPresent(levels: seq<string>, r: Row, finer: seq<Value>)
    requires PicksAt(finer, levels, FinerKeyIn(r), CellIn(r), Positions(levels, FinerKeyIn(r)))
    ensures forall i :: 0 <= i < |levels| && !IsFloat(Cell(r, levels[i])) ==> Cell(r, levels[i]) in finer
  {
    PicksPresent(finer, levels, FinerKeyIn(r), CellIn(r), Positions(levels, FinerKeyIn(r)));
    forall i | 0 <= i < |levels| && !IsFloat(Cell(r, levels[i]))
      ensures Cell(r, levels[i]) in finer
    {
      assert FinerKeyIn(r)(levels[i]) && CellIn(r)(levels[i]) == Cell(r, levels[i]);
    }
  }

  function CategoryOf(r: Row): Value {
    Cell(r, CategoryLevel)
  }

  /** The category column, row by row. */
  function Categories(rows: seq<Row>): (cs: seq<Value>)
    ensures |cs| == |rows|
    ensures forall i :: 0 <= i < |rows| ==> cs[i] == CategoryOf(rows[i])
  {
    Map(rows, CategoryOf)
  }

  lemma CategoriesSnoc(rows: seq<Row>)
    requires |rows| > 0
    ensures Categories(rows) == Categories(rows[..|rows| - 1]) + [CategoryOf(rows[|rows| - 1])]
  {
    var a := Categories(rows);
    var b := Categories(rows[..|rows| - 1]) + [CategoryOf(rows[|rows| - 1])];
    assert |a| == |b|;
    forall i | 0 <= i < |a|
      ensures a[i] == b[i]
    {
      if i < |rows| - 1 {
        assert rows[..|rows| - 1][i] == rows[i];
      }
    }
  }

  lemma DedupSnoc<T>(xs: seq<T>, x: T)
    ensures Dedup(xs + [x]) == if x in xs then Dedup(xs) else Dedup(xs) + [x]
  {
    assert (xs + [x])[..|xs|] == xs;
    DedupMembers(xs);
  }

  /** The trie after inserting the rows in order. */
  function BuildTrie(rows: seq<Row>): seq<Node>
    decreases |rows|
  {
    if |rows| == 0 then [] else Insert(BuildTrie(rows[..|rows| - 1]), RowPath(rows[|rows| - 1]))
  }

  /** The first level lists the categories in order of first appearance. */
  lemma {:induction false} BuildTrieKeys(rows: seq<Row>)
    ensures Keys(BuildTrie(rows)) == Dedup(Categories(rows))
    decreases |rows|
  {
    if |rows| > 0 {
      var init := rows[..|rows| - 1];
      var last := rows[|rows| - 1];
      var t := BuildTrie(init);
      var path := RowPath(last);
      var cats := Categories(init);
      var x := CategoryOf(last);
      assert BuildTrie(rows) == Insert(t, path);
      assert Keys(t) == Dedup(cats) by {
        BuildTrieKeys(init);
      }
      assert Categories(rows) == cats + [x] by {
        CategoriesSnoc(rows);
      }
      assert Dedup(cats + [x]) == if x in cats then Dedup(cats) else Dedup(cats) + [x] by {
        DedupSnoc(cats, x);
      }
      assert path[0] == x;
      assert x in cats <==> x in Keys(t);
    }
  }

  /** The trie holds every row's path and never duplicates a key. */
  lemma {:induction false} BuildTrieSound(rows: seq<Row>)
    ensures WellFormed(BuildTrie(rows))
    ensures forall k :: 0 <= k < |rows| ==> Contains(BuildTrie(rows), RowPath(rows[k]))
    decreases |rows|
  {
    if |rows| > 0 {
      var init := rows[..|rows| - 1];
      var t := BuildTrie(init);
      var last := RowPath(rows[|rows| - 1]);
      assert BuildTrie(rows) == Insert(t, last);
      BuildTrieSound(init);
      InsertWellFormed(t, last);
      InsertContains(t, last);
      InsertKeepsAll(t, init, last);
      forall k | 0 <= k < |rows|
        ensures Contains(BuildTrie(rows), RowPath(rows[k]))
      {
        if k < |rows| - 1 {
          assert rows[k] == init[k];
        }
      }
    }
  }

  lemma InsertKeepsAll(t: seq<Node>, rows: seq<Row>, q: seq<Value>)
    requires forall k :: 0 <= k < |rows| ==> Contains(t, RowPath(rows[k]))
    ensures forall k :: 0 <= k < |rows| ==> Contains(Insert(t, q), RowPath(rows[k]))
  {
    forall k | 0 <= k < |rows|
      ensures Contains(Insert(t, q), RowPath(rows[k]))
    {
      InsertKeeps(t, RowPath(rows[k]), q);
    }
  }

  // -------------------------------------------------------- depth annotation

  /** No branch is deeper than `h` levels. */
  predicate DepthAtMost(ns: seq<Node>, h: nat)
    decreases ns
  {
    forall i :: 0 <= i < |ns| ==> h >= 1 && DepthAtMost(ns[i].children, h - 1)
  }

  lemma {:induction false} ChainDepth(path: seq<Value>, h: nat)
    requires 0 < |path| <= h
    ensures DepthAtMost([Chain(path)], h)
    decreases |path|
  {
    if |path| > 1 {
      ChainDepth(path[1..], h - 1);
    }
  }

  lemma {:induction false} InsertDepth(ns: seq<Node>, path: seq<Value>, h: nat)
    requires DepthAtMost(ns, h) && |path| <= h
    ensures DepthAtMost(Insert(ns, path), h)
    decreases |path|
  {
    if |path| > 0 {
      var r := Insert(ns, path);
      match FindKey(ns, path[0])
      case None =>
        ChainDepth(path, h);
        forall i | 0 <= i < |r|
          ensures h >= 1 && DepthAtMost(r[i].children, h - 1)
        {
          if i == |ns| {
            assert [Chain(path)][0] == r[i];
          }
        }
      case Some(i) =>
        InsertDepth(ns[i].children, path[1..], h - 1);
    }
  }

  /** A lipid has at most eight levels, so the tree is at most eight deep. */
  lemma {:induction false} BuildTrieDepth(rows: seq<Row>)
    ensures DepthAtMost(BuildTrie(rows), 8)
    decreases |rows|
  {
    if |rows| > 0 {
      BuildTrieDepth(rows[..|rows| - 1]);
      InsertDepth(BuildTrie(rows[..|rows| - 1]), RowPath(rows[|rows| - 1]), 8);
    }
  }

  /** The branch length the plot uses to tell the levels apart, by depth below the root. */
  function BranchLength(depth: nat): Option<real> {
    if depth == 1 then Some(0.15)
    else if depth == 2 then Some(0.6)
    else if depth == 3 then Some(0.2)
    else if depth == 4 then Some(0.0501)
    else if depth == 5 then Some(0.0502)
    else if depth == 6 then Some(0.0503)
    else if depth == 7 then Some(0.0504)
    else if depth == 8 then Some(0.0505)
    else None
  }

  datatype Annotation = Annotation(branchLength: real, property: Value, confidence: nat)

  /** A phyloXML clade: name, the attributes set on it, and its sub-clades. */
  datatype Clade = Clade(name: Value, annotation: Option<Annotation>, clades: seq<Clade>)

  /** `phylo_subtree_setup` followed by the eight nested annotation loops: a node at
      `depth` below the root gets that depth's branch length and its category's
      name and number; the loops reach no deeper than eight levels. */
  function Annotate(n: Node, depth: nat, category: Value, confidence: nat): (c: Clade)
    ensures c.name == n.key && |c.clades| == |n.children|
    decreases n
  {
    var a := match BranchLength(depth)
      case Some(b) => Some(Annotation(b, category, confidence))
      case None => None;
    Clade(n.key, a, seq(|n.children|, i requires 0 <= i < |n.children| => Annotate(n.children[i], depth + 1, category, confidence)))
  }

  /** Every clade of the subtree carries the annotation of its own depth. */
  predicate AnnotatedFrom(c: Clade, depth: nat, category: Value, confidence: nat)
    decreases c
  {
    && (depth <= 8 ==> c.annotation.Some?)
    && (c.annotation.Some? ==>
          Some(c.annotation.value.branchLength) == BranchLength(depth)
          && c.annotation.value.property == category
          && c.annotation.value.confidence == confidence)
    && forall i :: 0 <= i < |c.clades| ==> AnnotatedFrom(c.clades[i], depth + 1, category, confidence)
  }

  lemma {:induction false} AnnotateSound(n: Node, depth: nat, category: Value, confidence: nat)
    requires depth >= 1
    ensures AnnotatedFrom(Annotate(n, depth, category, confidence), depth, category, confidence)
    decreases n
  {
    var c := Annotate(n, depth, category, confidence);
    forall i | 0 <= i < |c.clades|
      ensures AnnotatedFrom(c.clades[i], depth + 1, category, confidence)
    {
      AnnotateSound(n.children[i], depth + 1, category, confidence);
    }
  }

  function CladeNames(cs: seq<Clade>): (names: seq<Value>)
    ensures |names| == |cs|
    ensures forall i :: 0 <= i < |cs| ==> names[i] == cs[i].name
  {
    seq(|cs|, i requires 0 <= i < |cs| => cs[i].name)
  }

  /** The whole tree: root 'Lipidome', one clade per category in first-seen order,
      the i-th category's subtree numbered i + 1. */
  function LipidomeTree(rows: seq<Row>): (root: Clade)
    ensures root.name == Str("Lipidome") && root.annotation.None?
    ensures CladeNames(root.clades) == Dedup(Categories(rows))
  {
    var t := BuildTrie(rows);
    BuildTrieKeys(rows);
    Clade(Str("Lipidome"), None, CategoryClades(t))
  }

  /** The annotated subtree of every category, the i-th numbered i + 1. */
  function CategoryClades(t: seq<Node>): (cs: seq<Clade>)
    ensures |cs| == |t|
    ensures forall i :: 0 <= i < |t| ==> cs[i] == Annotate(t[i], 1, t[i].key, i + 1)
    ensures CladeNames(cs) == Keys(t)
  {
    var cs := seq(|t|, i requires 0 <= i < |t| => Annotate(t[i], 1, t[i].key, i + 1));
    assert CladeNames(cs) == Keys(t);
    cs
  }

  /** `phylo_create_phyloXML` up to the XML text: indexing a row by a shorthand
      column that the table lacks fails. */
  function CreatePhyloTree(t: Table): (r: Result<Clade, Failure>)
    ensures r.Err? <==> |t.rows| > 0 && exists c :: c in [CategoryLevel] + FinerLevels && c !in t.columns
    ensures r.Ok? ==> r.value == LipidomeTree(t.rows)
  {
    var needed := [CategoryLevel] + FinerLevels;
    if |t.rows| == 0 then Ok(LipidomeTree(t.rows))
    else match FirstMissing(needed, t.columns)
      case Some(c) => Err(MissingColumn(c))
      case None => Ok(LipidomeTree(t.rows))
  }

  /** Under category `i` every clade, down to the finest level, has branch length
      fixed by its depth, property the category's name and confidence `i + 1`. */
  lemma LipidomeTreeAnnotated(rows: seq<Row>, i: nat)
    requires i < |LipidomeTree(rows).clades|
    ensures var c := LipidomeTree(rows).clades[i];
      && c.name == Dedup(Categories(rows))[i]
      && c.annotation == Some(Annotation(0.15, c.name, i + 1))
      && AnnotatedFrom(c, 1, c.name, i + 1)
  {
    var cs := LipidomeTree(rows).clades;
    assert cs == CategoryClades(BuildTrie(rows));
    assert cs[i].name == CladeNames(cs)[i];
    CategoryCladeAnnotated(BuildTrie(rows), i);
  }

  lemma CategoryCladeAnnotated(t: seq<Node>, i: nat)
    requires i < |t|
    ensures var c := CategoryClades(t)[i];
      && c.annotation == Some(Annotation(0.15, c.name, i + 1))
      && AnnotatedFrom(c, 1, c.name, i + 1)
  {
    var c := CategoryClades(t)[i];
    assert c == Annotate(t[i], 1, t[i].key, i + 1);
    AnnotateSound(t[i], 1, t[i].key, i + 1);
  }

  /** Because no lipid has more than eight levels, no clade is left unannotated. */
  lemma {:induction false} DeepestAnnotated(n: Node, depth: nat, category: Value, confidence: nat)
    requires 1 <= depth <= 8 && DepthAtMost([n], 9 - depth)
    ensures FullyAnnotated(Annotate(n, depth, category, confidence))
    decreases n
  {
    var c := Annotate(n, depth, category, confidence);
    assert [n][0] == n;
    forall i | 0 <= i < |c.clades|
      ensures FullyAnnotated(c.clades[i])
    {
      assert DepthAtMost(n.children, 8 - depth);
      assert [n.children[i]][0] == n.children[i];
      DeepestAnnotated(n.children[i], depth + 1, category, confidence);
    }
  }

  predicate FullyAnnotated(c: Clade)
    decreases c
  {
    c.annotation.Some? && forall i :: 0 <= i < |c.clades| ==> FullyAnnotated(c.clades[i])
  }

  lemma LipidomeTreeFullyAnnotated(rows: seq<Row>)
    ensures forall i :: 0 <= i < |LipidomeTree(rows).clades| ==> FullyAnnotated(LipidomeTree(rows).clades[i])
  {
    var t := BuildTrie(rows);
    BuildTrieDepth(rows);
    forall i | 0 <= i < |t|
      ensures FullyAnnotated(Annotate(t[i], 1, t[i].key, i + 1))
    {
      assert [t[i]][0] == t[i];
      DeepestAnnotated(t[i], 1, t[i].key, i + 1);
    }
  }

  // ------------------------------------------------------------ node colours

  /** The colour name each decimal digit is replaced by. */
  function Colour(d: nat): (name: string)
    requires d < 10
    ensures |name| > 0 && forall i :: 0 <= i < |name| ==> !IsDigit(name[i])
  {
    ["black", "red", "lime", "cyan", "purple", "orange", "green", "blue", "magenta", "grey"][d]
  }

  /** The text after the first `k` single-digit rules, applied '0' first. */
  function Stage(s: string, k: nat): string
    requires k <= 10
  {
    if k == 0 then s else ReplaceAll(Stage(s, k - 1), [DigitChar(k - 1)], Colour(k - 1))
  }

  /** `phylo_number_to_color` for one number, as written: `str(n)`, the ten
      single-digit rules, then the rule for '10'. */
  function NumberToColor(n: int): string {
    ReplaceAll(Stage(IntToString(n), 10), "10", "yellow")
  }

  function NumbersToColors(ns: seq<int>): (cs: seq<string>)
    ensures |cs| == |ns| && forall i :: 0 <= i < |ns| ==> cs[i] == NumberToColor(ns[i])
  {
    Map(ns, NumberToColor)
  }

  /** Replacing every `c` by `rep`, character by character. */
  function CharSubst(s: string, c: char, rep: string): string {
    if |s| == 0 then "" else (if s[0] == c then rep else [s[0]]) + CharSubst(s[1..], c, rep)
  }

  lemma {:induction false} ReplaceSingle(s: string, c: char, rep: string)
    ensures ReplaceAll(s, [c], rep) == CharSubst(s, c, rep)
    decreases |s|
  {
    if |s| > 0 {
      assert StartsWith(s, [c]) <==> s[0] == c by {
        assert s[..1] == [s[0]];
      }
      ReplaceSingle(s[1..], c, rep);
    }
  }

  lemma {:induction false} CharSubstConcat(a: string, b: string, c: char, rep: string)
    ensures CharSubst(a + b, c, rep) == CharSubst(a, c, rep) + CharSubst(b, c, rep)
    decreases |a|
  {
    if |a| > 0 {
      assert (a + b)[0] == a[0] && (a + b)[1..] == a[1..] + b;
      CharSubstConcat(a[1..], b, c, rep);
    } else {
      assert a + b == b;
    }
  }

  lemma {:induction false} CharSubstAbsent(s: string, c: char, rep: string)
    requires forall i :: 0 <= i < |s| ==> s[i] != c
    ensures CharSubst(s, c, rep) == s
    decreases |s|
  {
    if |s| > 0 {
      CharSubstAbsent(s[1..], c, rep);
      assert s == [s[0]] + s[1..];
    }
  }

  /** What one character becomes once the digits below `k` are coloured. */
  function Piece(ch: char, k: nat): string {
    if IsDigit(ch) && DigitValue(ch) < k then Colour(DigitValue(ch)) else [ch]
  }

  /** Every digit below `k` replaced by its colour, independently of the others. */
  function Painted(s: string, k: nat): string {
    if |s| == 0 then "" else Piece(s[0], k) + Painted(s[1..], k)
  }

  lemma {:induction false} PaintedNothing(s: string)
    ensures Painted(s, 0) == s
  {
    if |s| > 0 {
      PaintedNothing(s[1..]);
      assert s == [s[0]] + s[1..];
    }
  }

  lemma PieceStep(ch: char, k: nat)
    requires k < 10
    ensures CharSubst(Piece(ch, k), DigitChar(k), Colour(k)) == Piece(ch, k + 1)
  {
    var p := Piece(ch, k);
    if IsDigit(ch) && DigitValue(ch) < k {
      CharSubstAbsent(p, DigitChar(k), Colour(k));
    } else if ch == DigitChar(k) {
      assert CharSubst([ch], ch, Colour(k)) == Colour(k) + CharSubst([], ch, Colour(k));
    } else {
      assert CharSubst([ch], DigitChar(k), Colour(k)) == [ch] + CharSubst([], DigitChar(k), Colour(k));
    }
  }

  lemma {:induction false} PaintStep(s: string, k: nat)
    requires k < 10
    ensures CharSubst(Painted(s, k), DigitChar(k), Colour(k)) == Painted(s, k + 1)
    decreases |s|
  {
    if |s| > 0 {
      CharSubstConcat(Piece(s[0], k), Painted(s[1..], k), DigitChar(k), Colour(k));
      PieceStep(s[0], k);
      PaintStep(s[1..], k);
    }
  }

  /** The sequential rules colour each digit on its own: colour names hold no digit
      that a later rule could rewrite. */
  lemma {:induction false} StagePaints(s: string, k: nat)
    requires k <= 10
    ensures Stage(s, k) == Painted(s, k)
  {
    if k == 0 {
      PaintedNothing(s);
    } else {
      StagePaints(s, k - 1);
      ReplaceSingle(Stage(s, k - 1), DigitChar(k - 1), Colour(k - 1));
      PaintStep(s, k - 1);
    }
  }

  lemma {:induction false} PaintedHasNoDigit(s: string)
    ensures forall i :: 0 <= i < |Painted(s, 10)| ==> !IsDigit(Painted(s, 10)[i])
    decreases |s|
  {
    if |s| > 0 {
      PaintedHasNoDigit(s[1..]);
    }
  }

  /** Every number's colour string is its digits' colour names in order; the rule for
      '10' never finds anything left to replace. */
  lemma NumberToColorPaints(n: int)
    ensures NumberToColor(n) == Painted(IntToString(n), 10)
  {
    var s := Painted(IntToString(n), 10);
    StagePaints(IntToString(n), 10);
    PaintedHasNoDigit(IntToString(n));
    NoDigitNoTen(s);
    ReplaceAbsent(s, "10", "yellow");
  }

  lemma NoDigitNoTen(s: string)
    requires forall i :: 0 <= i < |s| ==> !IsDigit(s[i])
    ensures forall k: nat :: k <= |s| ==> !OccursAt(s, "10", k)
  {
    forall k: nat | k <= |s|
      ensures !OccursAt(s, "10", k)
    {
      if k + 2 <= |s| {
        assert s[k..k + 2][0] == s[k];
        assert !IsDigit(s[k]);
      }
    }
  }

  /** A single digit gets its own colour. */
  lemma DigitColour(d: nat)
    requires d < 10
    ensures NumberToColor(d) == Colour(d)
  {
    NumberToColorPaints(d);
    assert IntToString(d) == [DigitChar(d)];
    assert Painted([DigitChar(d)], 10) == Piece(DigitChar(d), 10) + Painted([], 10);
  }

  /** Ten, the confidence of the tenth category, comes out as 'redblack'. */
  lemma TenIsRedBlack(n: int)
    requires n == 10
    ensures NumberToColor(n) == "redblack"
  {
    NumberToColorPaints(n);
    var s := IntToString(n);
    assert s == NatToString(1) + [DigitChar(0)];
    TenPainted(s);
  }

  lemma TenPainted(s: string)
    requires s == ['1', '0']
    ensures Painted(s, 10) == "redblack"
  {
    assert Painted(s, 10) == Piece('1', 10) + Painted(s[1..], 10);
    assert s[1..] == ['0'];
    assert Painted(['0'], 10) == Piece('0', 10) + Painted([], 10);
  }

  /** The evidently intended mapping: the '10' rule applied before the digits are
      rewritten, so that ten is 'yellow'. */
  function NumberToColorIntended(n: int): string {
    Stage(ReplaceAll(IntToString(n), "10", "yellow"), 10)
  }

  lemma IntendedDigitColour(d: nat)
    requires d < 10
    ensures NumberToColorIntended(d) == Colour(d)
  {
    var s := IntToString(d);
    assert s == [DigitChar(d)];
    forall k: nat | k <= |s|
      ensures !OccursAt(s, "10", k)
    {
    }
    ReplaceAbsent(s, "10", "yellow");
    StagePaints(s, 10);
    assert Painted(s, 10) == Piece(DigitChar(d), 10) + Painted([], 10);
  }

  lemma IntendedTenIsYellow()
    ensures NumberToColorIntended(10) == "yellow"
  {
    assert ReplaceAll(IntToString(10), "10", "yellow") == "yellow" by {
      TenText();
      TenReplaced();
    }
    LettersStayPut("yellow");
  }

  /** Text without digits passes the ten single-digit rules unchanged. */
  lemma LettersStayPut(s: string)
    requires forall i :: 0 <= i < |s| ==> !IsDigit(s[i])
    ensures Stage(s, 10) == s
  {
    StagePaints(s, 10);
    PaintedLetters(s);
  }

  lemma TenText()
    ensures IntToString(10) == "10"
  {
    assert NatToString(10) == NatToString(1) + [DigitChar(0)];
  }

  lemma TenReplaced()
    ensures ReplaceAll("10", "10", "yellow") == "yellow"
  {
    assert StartsWith("10", "10");
    assert "10"[2..] == "";
  }

  lemma {:induction false} PaintedLetters(s: string)
    requires forall i :: 0 <= i < |s| ==> !IsDigit(s[i])
    ensures Painted(s, 10) == s
    decreases |s|
  {
    if |s| > 0 {
      PaintedLetters(s[1..]);
      assert s == [s[0]] + s[1..];
    }
  }
}
