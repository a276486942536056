/**
 * The tree-data provider: it owns the mapping from parent label to child
 * labels, rebuilds it from the text of the `.dot` file, answers the
 * rendering host's requests for the children of a node, and notifies the
 * host after every rebuild.
 */
module ConanDependencies {
  import opened Wrappers
  import opened JsString
  import opened ConanGraph
  import opened ParserProperties

  /** `TreeItemCollapsibleState`: `Leaf` stands for its `None` member. */
  datatype CollapsibleState = Leaf | Collapsed

  /** A node of the tree as the host receives it: its label and whether it can be expanded. */
  datatype ConanDependency = ConanDependency(name: string, state: CollapsibleState)

  /** The key looked up for a node: ROOT when no node is given. */
  function QueryKey(element: Option<ConanDependency>): string {
    match element
    case None => Root
    case Some(node) => node.name
  }

  /** The node built for one child: collapsed when the child is itself a key. */
  function NodeFor(g: Graph, child: string): ConanDependency {
    ConanDependency(child, if child in g then Collapsed else Leaf)
  }

  /** One node per child, in stored order. */
  ghost function ChildNodes(g: Graph, kids: seq<string>): seq<ConanDependency> {
    if |kids| == 0 then []
    else ChildNodes(g, kids[..|kids| - 1]) + [NodeFor(g, kids[|kids| - 1])]
  }

  /**
   * The nodes keep the children's order, carry their labels, and are
   * collapsed exactly for the children that are keys themselves.
   */
  lemma {:induction false} ChildNodesAt(g: Graph, kids: seq<string>)
    ensures |ChildNodes(g, kids)| == |kids|
    ensures forall i :: 0 <= i < |kids| ==>
              ChildNodes(g, kids)[i].name == kids[i] && (ChildNodes(g, kids)[i].state == Collapsed <==> kids[i] in g)
  {
    if |kids| > 0 {
      ChildNodesAt(g, kids[..|kids| - 1]);
    }
  }

  /** Asking for the children of no node is asking for the children of ROOT. */
  lemma UndefinedMeansRoot(g: Graph, state: CollapsibleState)
    ensures ChildNodes(g, Lookup(g, QueryKey(None))) == ChildNodes(g, Lookup(g, QueryKey(Some(ConanDependency(Root, state)))))
  {
  }

  /** A label that is not a key, such as one seen only as a child, has no children. */
  lemma AbsentLabelHasNoChildren(g: Graph, name: string, state: CollapsibleState)
    requires name !in g
    ensures ChildNodes(g, Lookup(g, QueryKey(Some(ConanDependency(name, state))))) == []
  {
  }

  /**
   * A label for which no line of the text lists children, such as one
   * seen only on right-hand sides, has no children once the text is read,
   * and wherever it appears as a child its node is a leaf.
   */
  lemma ChildOnlyLabelIsLeaf(text: string, name: string, state: CollapsibleState)
    requires forall i :: 0 <= i < |Split(text, "\n")| ==> !ContributesKey(Split(text, "\n")[i], name)
    ensures ChildNodes(Parse(text), Lookup(Parse(text), QueryKey(Some(ConanDependency(name, state))))) == []
    ensures NodeFor(Parse(text), name).state == Leaf
  {
    if name in Parse(text) {
      var i := KeySource(Split(text, "\n"), name);
      assert false;
    }
  }

  /**
   * The key for the text left of `->`: the first quote removed, then
   * trimmed, then every quote removed; ROOT when the label names the
   * project.
   */
  method ParentLabel(left: string) returns (parentLabel: string)
    ensures parentLabel == NormalizeParent(left)
    ensures Excludes(parentLabel, '"')
    ensures IsProjectLabel(CleanParentLabel(left)) ==> parentLabel == Root
    ensures !IsProjectLabel(CleanParentLabel(left)) ==> parentLabel == CleanParentLabel(left)
  {
    parentLabel := DeleteFirst(left, '"');
    parentLabel := Trim(parentLabel);
    parentLabel := DeleteAll(parentLabel, '"');
    if Includes(parentLabel, "@PROJECT") || Includes(parentLabel, "conanfile.py") {
      parentLabel := "ROOT";
    }
  }

  /**
   * Appends the children listed in the text right of `->` to the list
   * collected so far for the parent: the first `{`, the first `}` and
   * every quote are removed, and the text is split on spaces.
   */
  method CollectChildren(childrenConan: seq<string>, children: string) returns (result: seq<string>)
    ensures result == childrenConan + ChildLabels(children)
    ensures childrenConan <= result
  {
    var cleaned := DeleteFirst(children, '{');
    cleaned := DeleteFirst(cleaned, '}');
    cleaned := DeleteAll(cleaned, '"');
    var cleanChildren := Split(cleaned, " ");
    result := AppendTokens(childrenConan, cleanChildren);
  }

  /** Appends every token other than "" and " ", trimmed, in order. */
  method AppendTokens(childrenConan: seq<string>, cleanChildren: seq<string>) returns (result: seq<string>)
    ensures result == childrenConan + KeptLabels(cleanChildren)
  {
    result := childrenConan;
    var j := 0;
    while j < |cleanChildren|
      invariant 0 <= j <= |cleanChildren|
      invariant result == childrenConan + KeptLabels(cleanChildren[..j])
    {
      var cleanChild := cleanChildren[j];
      if cleanChild != "" && cleanChild != " " {
        var childLabel := Trim(cleanChild);
        result := result + [childLabel];
      }
      assert cleanChildren[..j + 1][..j] == cleanChildren[..j];
      j := j + 1;
    }
    assert cleanChildren[..j] == cleanChildren;
  }

  class ConanDependenciesProvider {
    /** Parent label to its children, in the order the `.dot` file lists them. */
    var dependencies: Graph
    /** The mapping as it stood at each refresh notification, oldest first. */
    var refreshed: seq<Graph>

    constructor (dependencies: Graph)
      ensures this.dependencies == dependencies && refreshed == []
    {
      this.dependencies := dependencies;
      refreshed := [];
    }

    /** Fires the change notification: the host re-reads the whole tree. */
    method Refresh()
      modifies this
      ensures dependencies == old(dependencies)
      ensures refreshed == old(refreshed) + [dependencies]
    {
      refreshed := refreshed + [dependencies];
    }

    /**
     * Rebuilds the mapping from the contents of the `.dot` file and then
     * fires one refresh. The result depends on the text alone: whatever
     * the mapping held before is discarded.
     */
    method ReadConanInfo(fileContents: string)
      modifies this
      ensures dependencies == Parse(fileContents)
      ensures refreshed == old(refreshed) + [Parse(fileContents)]
    {
      var lines := Split(fileContents, "\n");
      dependencies := map[];
      var i := 0;
      while i < |lines|
        invariant 0 <= i <= |lines|
        invariant dependencies == ParseLines(lines[..i])
        invariant refreshed == old(refreshed)
      {
        ReadLine(lines[i]);
        assert lines[..i + 1][..i] == lines[..i];
        i := i + 1;
      }
      assert lines[..i] == lines;
      Refresh();
    }

    /** The per-line callback of ReadConanInfo's loop over the lines. */
    method ReadLine(line: string)
      modifies this
      ensures dependencies == ProcessLine(old(dependencies), line)
      ensures refreshed == old(refreshed)
    {
      if !StartsWith(line, "}") && !StartsWith(line, "digraph") {
        var split := Split(line, "->");
        // `split.length > 0` always holds: Split never returns an empty list.
        var parentLabel := ParentLabel(split[0]);
        var childrenConan: seq<string> := [];
        if parentLabel in dependencies {
          childrenConan := dependencies[parentLabel];
        }
        assert childrenConan == Lookup(dependencies, parentLabel);
        if |split| > 1 && split[1] != "" {
          ghost var e := Edge(parentLabel, ChildLabels(split[1]));
          assert LineEdge(line) == Some(e);
          childrenConan := CollectChildren(childrenConan, split[1]);
          if |childrenConan| > 0 {
            dependencies := dependencies[parentLabel := childrenConan];
          }
          assert dependencies == AddEdge(old(dependencies), e);
        } else {
          assert LineEdge(line) == None;
        }
      } else {
        assert LineEdge(line) == None;
      }
    }

    /**
     * The children of `element`, or of ROOT when no element is given, one
     * node per stored child in stored order; none when the label has no
     * entry.
     */
    method GetChildren(element: Option<ConanDependency>) returns (ret: seq<ConanDependency>)
      ensures ret == ChildNodes(dependencies, Lookup(dependencies, QueryKey(element)))
    {
      ret := [];
      var children: Option<seq<string>>;
      if element == None {
        children := if Root in dependencies then Some(dependencies[Root]) else None;
      } else {
        var name := element.value.name;
        children := if name in dependencies then Some(dependencies[name]) else None;
      }
      if children != None {
        var kids := children.value;
        var j := 0;
        while j < |kids|
          invariant 0 <= j <= |kids|
          invariant ret == ChildNodes(dependencies, kids[..j])
        {
          var child := kids[j];
          var childDependency: ConanDependency;
          if child in dependencies {
            childDependency := ConanDependency(child, Collapsed);
          } else {
            childDependency := ConanDependency(child, Leaf);
          }
          ret := ret + [childDependency];
          assert kids[..j + 1][..j] == kids[..j];
          j := j + 1;
        }
        assert kids[..j] == kids;
      }
    }
  }
}
