/**
 * The dependency-graph parser of `ConanDependenciesProvider.readConanInfo`
 * as pure functions: what one line of the `.dot` text does to the mapping
 * from parent label to child labels, and what the whole text builds from an
 * empty mapping. The class in conan_dependencies.dfy runs the same steps
 * imperatively and is proved to build exactly `Parse(text)`.
 */
module ConanGraph {
  import opened Wrappers
  import opened JsString

  /** The synthetic key under which the project's own dependencies are stored. */
  const Root: string := "ROOT"

  /** Parent label to the ordered children collected for it. */
  type Graph = map<string, seq<string>>

  /** The children stored for `name`, or none when it is not a key. */
  function Lookup(g: Graph, name: string): seq<string> {
    if name in g then g[name] else []
  }

  /** A label that names the project itself rather than a package. */
  predicate IsProjectLabel(name: string) {
    Includes(name, "@PROJECT") || Includes(name, "conanfile.py")
  }

  /**
   * The text left of `->`, cleaned in the source's order: the first quote
   * is dropped, the rest is trimmed, then every remaining quote is dropped.
   * Trimming comes before the global strip, so white space inside a closing
   * quote survives.
   */
  function CleanParentLabel(left: string): (r: string)
    ensures Excludes(r, '"')
  {
    DeleteAll(Trim(DeleteFirst(left, '"')), '"')
  }

  /** The key a parent is stored under: ROOT for the project, its cleaned label otherwise. */
  function NormalizeParent(left: string): (r: string)
    ensures Excludes(r, '"')
  {
    var name := CleanParentLabel(left);
    if IsProjectLabel(name) then Root else name
  }

  /** The text right of `->` with its first `{`, its first `}` and every quote removed. */
  function CleanChildren(rhs: string): (r: string)
    ensures Excludes(r, '"')
  {
    DeleteAll(DeleteFirst(DeleteFirst(rhs, '{'), '}'), '"')
  }

  /** A token of the space-split children text that is kept as a child. */
  predicate KeepToken(token: string) {
    token != "" && token != " "
  }

  /** The trimmed kept tokens, in input order. */
  function KeptLabels(tokens: seq<string>): (r: seq<string>)
    ensures |r| <= |tokens|
  {
    if |tokens| == 0 then []
    else
      var last := tokens[|tokens| - 1];
      KeptLabels(tokens[..|tokens| - 1]) + (if KeepToken(last) then [Trim(last)] else [])
  }

  /** What a stored child label looks like: no quote, no space, no white space at its ends. */
  predicate ChildLabelOk(name: string) {
    Excludes(name, '"') && Excludes(name, ' ') && Trimmed(name)
  }

  /** The child labels one line's right-hand side contributes, in input order. */
  function ChildLabels(rhs: string): seq<string> {
    KeptLabels(Split(CleanChildren(rhs), " "))
  }

  /** Every child label a line contributes is free of quotes and spaces and has no white space at its ends. */
  lemma ChildLabelsOk(rhs: string)
    ensures forall k :: 0 <= k < |ChildLabels(rhs)| ==> ChildLabelOk(ChildLabels(rhs)[k])
  {
    var cleaned := CleanChildren(rhs);
    SplitPiecesExcludeChar(cleaned, ' ');
    SplitPiecesKeepExclusion(cleaned, " ", '"');
    KeptLabelsOk(Split(cleaned, " "));
  }

  /** Every piece of a split on one character is free of that character. */
  lemma SplitPiecesExcludeChar(s: string, c: char)
    ensures forall k :: 0 <= k < |Split(s, [c])| ==> Excludes(Split(s, [c])[k], c)
  {
    SplitPiecesExcludeSep(s, [c]);
    forall k | 0 <= k < |Split(s, [c])| ensures Excludes(Split(s, [c])[k], c) {
      IncludesChar(Split(s, [c])[k], c);
    }
  }

  /** A character absent from `s` is absent from every piece of `Split(s, sep)`. */
  lemma {:induction false} SplitPiecesKeepExclusion(s: string, sep: string, c: char)
    requires |sep| > 0 && Excludes(s, c)
    ensures forall k :: 0 <= k < |Split(s, sep)| ==> Excludes(Split(s, sep)[k], c)
    decreases |s|
  {
    if |s| < |sep| {
    } else if StartsWith(s, sep) {
      SplitPiecesKeepExclusion(s[|sep|..], sep, c);
      var rest := Split(s[|sep|..], sep);
      forall k | 0 <= k < |Split(s, sep)| ensures Excludes(Split(s, sep)[k], c) {
        if k > 0 { assert Split(s, sep)[k] == rest[k - 1]; }
      }
    } else {
      SplitPiecesKeepExclusion(s[1..], sep, c);
      var rest := Split(s[1..], sep);
      forall k | 0 <= k < |Split(s, sep)| ensures Excludes(Split(s, sep)[k], c) {
        if k == 0 {
          assert Split(s, sep)[0] == [s[0]] + rest[0];
        } else {
          assert Split(s, sep)[k] == rest[k];
        }
      }
    }
  }

  /** Trimmed tokens free of quotes and spaces make well-formed child labels. */
  lemma {:induction false} KeptLabelsOk(tokens: seq<string>)
    requires forall k :: 0 <= k < |tokens| ==> Excludes(tokens[k], '"') && Excludes(tokens[k], ' ')
    ensures forall k :: 0 <= k < |KeptLabels(tokens)| ==> ChildLabelOk(KeptLabels(tokens)[k])
  {
    if |tokens| > 0 {
      var init := tokens[..|tokens| - 1];
      var last := tokens[|tokens| - 1];
      assert forall k :: 0 <= k < |init| ==> init[k] == tokens[k];
      KeptLabelsOk(init);
      var r := KeptLabels(init);
      if KeepToken(last) {
        TrimKeepsExclusion(last, '"');
        TrimKeepsExclusion(last, ' ');
        assert ChildLabelOk(Trim(last));
        assert KeptLabels(tokens) == r + [Trim(last)];
      } else {
        assert KeptLabels(tokens) == r;
      }
    }
  }

  /** What one line of the `.dot` text contributes: a parent key and its new children. */
  datatype Edge = Edge(parent: string, children: seq<string>)

  /**
   * The edge a line carries, or None for a header or footer line, a line
   * without `->` and a line with nothing after its first `->`. Only the
   * text before the first `->` and the text between the first and the
   * second `->` are read.
   */
  function LineEdge(line: string): Option<Edge> {
    if StartsWith(line, "}") || StartsWith(line, "digraph") then None
    else
      var split := Split(line, "->");
      if |split| > 1 && split[1] != "" then Some(Edge(NormalizeParent(split[0]), ChildLabels(split[1])))
      else None
  }

  /**
   * The children collected so far for the edge's parent, followed by the
   * edge's children, stored under the parent when the result is non-empty.
   */
  function AddEdge(g: Graph, e: Edge): Graph {
    var kids := Lookup(g, e.parent) + e.children;
    if |kids| > 0 then g[e.parent := kids] else g
  }

  /** One line of the `.dot` text applied to the mapping built so far. */
  function ProcessLine(g: Graph, line: string): Graph {
    match LineEdge(line)
    case None => g
    case Some(e) => AddEdge(g, e)
  }

  /** The mapping built from an empty one by the lines in order. */
  function ParseLines(lines: seq<string>): Graph {
    if |lines| == 0 then map[]
    else ProcessLine(ParseLines(lines[..|lines| - 1]), lines[|lines| - 1])
  }

  /** The mapping `readConanInfo` builds from the file contents. */
  function Parse(text: string): Graph {
    ParseLines(Split(text, "\n"))
  }
}
