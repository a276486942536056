/**
 * What the parser promises, stated over the pure model in conan_graph.dfy:
 * how one line changes the mapping, which lines change nothing, where the
 * project's own dependencies end up, and the shape of every mapping the
 * parser can build.
 */
module ParserProperties {
  import opened Wrappers
  import opened JsString
  import opened ConanGraph

  /**
   * Adding an edge appends its children, in order and with duplicates, to
   * the list already collected for its parent; the entry exists afterwards
   * exactly when that list is non-empty, and no other key changes.
   */
  lemma AddEdgeAppends(g: Graph, e: Edge)
    ensures forall k :: k != e.parent ==> (k in AddEdge(g, e) <==> k in g)
    ensures forall k :: k != e.parent && k in g ==> AddEdge(g, e)[k] == g[k]
    ensures e.parent in AddEdge(g, e) <==> e.parent in g || e.children != []
    ensures e.parent in AddEdge(g, e) ==> AddEdge(g, e)[e.parent] == Lookup(g, e.parent) + e.children
  {
  }

  /** A header line, a footer line, a line without `->` and a line with an empty right-hand side carry no edge. */
  lemma NoEdgeLines(line: string)
    ensures StartsWith(line, "}") || StartsWith(line, "digraph") ==> LineEdge(line) == None
    ensures !Includes(line, "->") ==> LineEdge(line) == None
    ensures |Split(line, "->")| > 1 && Split(line, "->")[1] == "" ==> LineEdge(line) == None
  {
    SplitSingleIffAbsent(line, "->");
  }

  /** A line without an edge leaves the mapping as it was, including lists collected earlier. */
  lemma NoEdgeKeepsGraph(g: Graph, line: string)
    requires LineEdge(line) == None
    ensures ProcessLine(g, line) == g
  {
  }

  /** Parsing one more line processes it against the mapping built so far. */
  lemma ParseLinesSnoc(lines: seq<string>, line: string)
    ensures ParseLines(lines + [line]) == ProcessLine(ParseLines(lines), line)
  {
    assert (lines + [line])[..|lines|] == lines;
  }

  /** The mapping after the first `i + 1` lines is line `i` processed against the mapping after the first `i`. */
  lemma ParseLinesPrefixStep(lines: seq<string>, i: nat)
    requires i < |lines|
    ensures ParseLines(lines[..i + 1]) == ProcessLine(ParseLines(lines[..i]), lines[i])
  {
    assert lines[..i + 1][..i] == lines[..i];
  }

  /** Removing a line without an edge from anywhere in the text does not change what is parsed. */
  lemma {:induction false} NoEdgeLineIrrelevant(before: seq<string>, line: string, after: seq<string>)
    requires LineEdge(line) == None
    ensures ParseLines(before + [line] + after) == ParseLines(before + after)
    decreases |after|
  {
    if |after| == 0 {
      assert before + [line] + after == before + [line];
      assert before + after == before;
      ParseLinesSnoc(before, line);
    } else {
      var init := after[..|after| - 1];
      var last := after[|after| - 1];
      assert after == init + [last];
      NoEdgeLineIrrelevant(before, line, init);
      assert before + [line] + after == (before + [line] + init) + [last];
      assert before + after == (before + init) + [last];
      ParseLinesSnoc(before + [line] + init, last);
      ParseLinesSnoc(before + init, last);
    }
  }

  /**
   * A line whose cleaned parent label names the project is stored under
   * ROOT, whatever the label was.
   */
  lemma ProjectLineStoresUnderRoot(line: string)
    requires LineEdge(line) != None
    requires IsProjectLabel(CleanParentLabel(Split(line, "->")[0]))
    ensures LineEdge(line).value.parent == Root
  {
  }

  /** An edge as the parser builds it: a quote-free parent and well-formed children. */
  ghost predicate EdgeOk(e: Edge) {
    Excludes(e.parent, '"') && forall j :: 0 <= j < |e.children| ==> ChildLabelOk(e.children[j])
  }

  /** Every edge a line yields has the shape of an edge the parser builds. */
  lemma LineEdgeOk(line: string)
    requires LineEdge(line) != None
    ensures EdgeOk(LineEdge(line).value)
  {
    ChildLabelsOk(Split(line, "->")[1]);
  }

  /**
   * The shape of a parsed mapping: no key holds a quote, every list is
   * non-empty, and every child label is free of quotes and spaces and has
   * no white space at its ends.
   */
  ghost predicate WellFormed(g: Graph) {
    forall k :: k in g ==> Excludes(k, '"') && |g[k]| > 0 && forall j :: 0 <= j < |g[k]| ==> ChildLabelOk(g[k][j])
  }

  /** Appending a well-formed edge keeps the mapping well formed. */
  lemma AddEdgePreservesWellFormed(g: Graph, e: Edge)
    requires WellFormed(g) && EdgeOk(e)
    ensures WellFormed(AddEdge(g, e))
  {
    var kids := Lookup(g, e.parent) + e.children;
    forall j | 0 <= j < |kids| ensures ChildLabelOk(kids[j]) {
      if j >= |Lookup(g, e.parent)| {
        assert kids[j] == e.children[j - |Lookup(g, e.parent)|];
      }
    }
  }

  /** Every prefix of the lines parses to a well-formed mapping. */
  lemma {:induction false} ParseLinesWellFormed(lines: seq<string>)
    ensures WellFormed(ParseLines(lines))
  {
    if |lines| > 0 {
      var g := ParseLines(lines[..|lines| - 1]);
      var line := lines[|lines| - 1];
      ParseLinesWellFormed(lines[..|lines| - 1]);
      if LineEdge(line) != None {
        LineEdgeOk(line);
        AddEdgePreservesWellFormed(g, LineEdge(line).value);
      }
    }
  }

  /** Every mapping the parser builds is well formed. */
  lemma ParseWellFormed(text: string)
    ensures WellFormed(Parse(text))
  {
    ParseLinesWellFormed(Split(text, "\n"));
  }

  /** A line never removes a key and never shortens a list. */
  lemma ProcessLineGrows(g: Graph, line: string)
    ensures forall k :: k in g ==> k in ProcessLine(g, line) && g[k] <= ProcessLine(g, line)[k]
  {
    match LineEdge(line)
    case None =>
    case Some(e) =>
      AddEdgeAppends(g, e);
      var h := AddEdge(g, e);
      forall k | k in g
        ensures k in h && g[k] <= h[k]
      {
        if k == e.parent {
          assert h[k] == g[k] + e.children;
        }
      }
  }

  /**
   * Within one pass lists only grow: a key present after some lines is
   * still present after more lines, and its earlier list is a prefix of
   * its later one.
   */
  lemma {:induction false} ParseLinesGrows(before: seq<string>, after: seq<string>)
    ensures forall k :: k in ParseLines(before) ==>
              k in ParseLines(before + after) && ParseLines(before)[k] <= ParseLines(before + after)[k]
    decreases |after|
  {
    if |after| > 0 {
      var init := after[..|after| - 1];
      ParseLinesGrows(before, init);
      var xs := before + after;
      assert xs[..|xs| - 1] == before + init;
      ProcessLineGrows(ParseLines(before + init), xs[|xs| - 1]);
    } else {
      assert before + after == before;
    }
  }

  /** An empty file yields an empty mapping. */
  lemma ParseEmptyText()
    ensures Parse("") == map[]
  {
    assert Split("", "\n") == [""];
    assert Split("", "->") == [""];
    assert LineEdge("") == None;
  }

  /** A line that creates or extends the entry for `k`: its parent is `k` and it lists a child. */
  ghost predicate ContributesKey(line: string, k: string) {
    LineEdge(line).Some? && LineEdge(line).value.parent == k && LineEdge(line).value.children != []
  }

  /** A line adds `k` as a key exactly when it lists children for `k`, and removes no key. */
  lemma ProcessLineKeys(g: Graph, line: string, k: string)
    ensures k in ProcessLine(g, line) <==> k in g || ContributesKey(line, k)
  {
    if LineEdge(line) != None {
      AddEdgeAppends(g, LineEdge(line).value);
    }
  }

  /**
   * Every key of a parsed mapping comes from a line that names it as the
   * parent and lists at least one child: a label seen only on right-hand
   * sides, or only with an empty children list, never becomes a key.
   */
  lemma {:induction false} KeySource(lines: seq<string>, k: string) returns (i: nat)
    requires k in ParseLines(lines)
    ensures i < |lines| && ContributesKey(lines[i], k)
  {
    var init := lines[..|lines| - 1];
    var last := lines[|lines| - 1];
    ProcessLineKeys(ParseLines(init), last, k);
    if ContributesKey(last, k) {
      i := |lines| - 1;
    } else {
      i := KeySource(init, k);
      assert lines[i] == init[i];
    }
  }

  /** A key, once present after some of the lines, stays present after all of them. */
  lemma {:induction false} ParseLinesKeepsKey(lines: seq<string>, n: nat, k: string)
    requires n <= |lines| && k in ParseLines(lines[..n])
    ensures k in ParseLines(lines)
    decreases |lines|
  {
    if n == |lines| {
      assert lines[..n] == lines;
    } else {
      var init := lines[..|lines| - 1];
      assert init[..n] == lines[..n];
      ParseLinesKeepsKey(init, n, k);
      ProcessLineKeys(ParseLines(init), lines[|lines| - 1], k);
    }
  }

  /** A line that lists children for `k` makes `k` a key as soon as it is processed. */
  lemma LineAddsKey(lines: seq<string>, i: nat, k: string)
    requires i < |lines| && ContributesKey(lines[i], k)
    ensures k in ParseLines(lines[..i + 1])
  {
    ParseLinesPrefixStep(lines, i);
    ProcessLineKeys(ParseLines(lines[..i]), lines[i], k);
  }

  /** Conversely to KeySource, a line that lists children for `k` makes `k` a key of the whole parse. */
  lemma {:induction false} ContributingLineAddsKey(lines: seq<string>, i: nat, k: string)
    requires i < |lines| && ContributesKey(lines[i], k)
    ensures k in ParseLines(lines)
  {
    LineAddsKey(lines, i, k);
    ParseLinesKeepsKey(lines, i + 1, k);
  }

  /** The keys of a parsed mapping are exactly the parents of the lines that list at least one child. */
  lemma {:induction false} ParseLinesKeys(lines: seq<string>, k: string)
    ensures k in ParseLines(lines) ==> exists i :: 0 <= i < |lines| && ContributesKey(lines[i], k)
    ensures (exists i :: 0 <= i < |lines| && ContributesKey(lines[i], k)) ==> k in ParseLines(lines)
  {
    if k in ParseLines(lines) {
      var i := KeySource(lines, k);
    }
    if exists i :: 0 <= i < |lines| && ContributesKey(lines[i], k) {
      var i :| 0 <= i < |lines| && ContributesKey(lines[i], k);
      ContributingLineAddsKey(lines, i, k);
    }
  }
}
