# conan-tools dependency tree, modelled in Dafny

The model covers the core of the conan-tools editor extension: the tree-data provider in
`src/conanDependencies.ts`. `conan info` writes a `.dot` graph file. The provider reads the graph's
text and rebuilds its mapping from parent label to child labels. The project's own node is stored
under the synthetic label `ROOT`. The provider then notifies the editor, and on request it answers
with the children of a node as tree items. A tree item is collapsible when the child has children
of its own.

Files:

- `wrappers.dfy`: the `Option` type. It stands for JavaScript's `undefined`.
- `js_string.dfy`: the JavaScript string operations the parser uses. These are `split` with a string
  separator, `replace` with a string (first occurrence), `replace` with a global pattern (every
  occurrence), `trim`, `startsWith` and `includes`. Each one has its own properties: `Join` undoes
  `Split`, no piece contains the separator, and trimming removes only white space.
- `conan_graph.dfy`: the parser as pure functions.
  - `LineEdge` is the edge a line contributes, if any.
  - `AddEdge` is how the edge changes the mapping.
  - `ParseLines` and `Parse` fold the edges over all lines.
- `parser_properties.dfy`: lemmas about the parser.
- `conan_dependencies.dfy`: the class `ConanDependenciesProvider`.
  - The `dependencies` field is the mapping.
  - The `refreshed` log records the mapping at each change notification.
  - `ReadConanInfo` and its per-line callback `ReadLine` are proved equal to `Parse`.
  - `GetChildren` is proved equal to `ChildNodes` of the stored list.

## Model

| member | source | states |
|---|---|---|
| ConanDependencies.ConanDependenciesProvider.ReadConanInfo | src/conanDependencies.ts:82-122 | The mapping is cleared and rebuilt from the text alone. The result is `Parse(fileContents)`, whatever the mapping held before, so re-reading the same text gives the same mapping. Exactly one refresh is fired, after the last line, and it carries the finished mapping. |
| ConanDependencies.ConanDependenciesProvider.ReadLine | src/conanDependencies.ts:87-120 | One pass of the line callback changes the mapping exactly as `ProcessLine` does. It fires no refresh. |
| ConanGraph.Parse | src/conanDependencies.ts:85-120 | The mapping built from the file contents: the text split on `\n`, then the lines folded from an empty mapping. |
| ConanGraph.ParseLines | src/conanDependencies.ts:86-120 | The mapping built from an empty one by processing the lines in order. |
| ConanGraph.ProcessLine | src/conanDependencies.ts:88-117 | A line with no edge leaves the mapping unchanged. A line with an edge adds that edge. |
| ConanGraph.LineEdge | src/conanDependencies.ts:88-103 | What one line carries. It is nothing when the line starts with `}` or `digraph`, has no `->`, or has an empty text between the first and second `->`. Otherwise it is the normalized parent of the text before the first `->`, with the child labels of the text between the first and second `->`. |
| ConanGraph.AddEdge | src/conanDependencies.ts:98-116 | The parent's current list, or an empty one, followed by the edge's children. It is stored under the parent when the result is non-empty; otherwise the mapping is unchanged. |
| ConanGraph.ChildLabels | src/conanDependencies.ts:104-113 | The right-hand side with its first `{`, first `}` and every quote removed, split on `' '`. Tokens other than `""` and `" "` are kept, trimmed, in order. |
| ConanGraph.IsProjectLabel | src/conanDependencies.ts:94 | A label names the project when it includes `@PROJECT` or `conanfile.py`. |
| ConanGraph.KeptLabels | src/conanDependencies.ts:108-113 | No more labels are kept than there are tokens. |
| ConanDependencies.ParentLabel | src/conanDependencies.ts:91-96 | The parent key equals `NormalizeParent` of the text left of `->`. That text loses its first quote, is trimmed, then loses every quote. The key contains no quote. It is ROOT when the cleaned label names the project, and the cleaned label otherwise. |
| ConanDependencies.CollectChildren | src/conanDependencies.ts:102-113 | The result is the list collected so far followed by `ChildLabels` of the right-hand side, so the earlier list is kept as a prefix. The right-hand side has its first `{`, its first `}` and all quotes removed, is split on spaces, and the labels are appended in order. |
| ConanDependencies.AppendTokens | src/conanDependencies.ts:107-113 | Every token other than `""` and `" "` is appended, trimmed, after the existing list and in token order. |
| ConanDependencies.ConanDependenciesProvider.GetChildren | src/conanDependencies.ts:21-47 | The result is one node per stored child of the element's label, or of ROOT when no element is given, in stored order. It is empty when the label has no entry. |
| ConanDependencies.QueryKey | src/conanDependencies.ts:24-28 | The label looked up: `ROOT` when no element is given, and the element's label otherwise. |
| ConanDependencies.NodeFor | src/conanDependencies.ts:33-39 | The node for one child. It carries the child's label and is Collapsed when the child is a key, and None (`Leaf`) otherwise. |
| ConanDependencies.ChildNodes | src/conanDependencies.ts:30-43 | One `NodeFor` node per child, in the children's order. |
| ConanDependencies.ChildNodesAt | src/conanDependencies.ts:30-43 | The nodes have the children's count, labels and order. A node is Collapsed exactly when its child is a key of the mapping, and is otherwise None (`Leaf`). |
| ConanDependencies.UndefinedMeansRoot | src/conanDependencies.ts:24-28 | Asking with no element gives the same nodes as asking for a node labelled ROOT. |
| ConanDependencies.AbsentLabelHasNoChildren | src/conanDependencies.ts:27-30 | A label that is not a key has no children. |
| ConanDependencies.ChildOnlyLabelIsLeaf | src/conanDependencies.ts:27-45 | After a text is read, consider a label for which no line lists children, such as one seen only on right-hand sides. Asking for its children gives none, and its node is None (`Leaf`), never Collapsed. |
| ConanDependencies.ConanDependenciesProvider.Refresh | src/conanDependencies.ts:49-51 | The notification leaves the mapping unchanged and records one more refresh. |
| ConanDependencies.ConanDependenciesProvider.constructor | src/conanDependencies.ts:53 | The mapping starts as the one given, with no refresh fired yet. |
| ConanGraph.CleanParentLabel | src/conanDependencies.ts:92-93 | A cleaned parent label contains no quote. |
| ConanGraph.NormalizeParent | src/conanDependencies.ts:92-96 | A parent key contains no quote. |
| ConanGraph.CleanChildren | src/conanDependencies.ts:104-106 | The cleaned children text contains no quote. |
| ConanGraph.ChildLabelsOk | src/conanDependencies.ts:104-112 | Every child label a line contributes has no quote and no space, and no white space at either end. |
| ParserProperties.ProjectLineStoresUnderRoot | src/conanDependencies.ts:94-96 | A line whose cleaned parent label contains `@PROJECT` or `conanfile.py` stores its children under ROOT. |
| ParserProperties.AddEdgeAppends | src/conanDependencies.ts:98-116 | An edge's children are appended to the parent's existing list, in order and keeping duplicates. The entry exists afterwards exactly when the parent had one or the line added a child. No other key is touched. |
| ParserProperties.NoEdgeLines | src/conanDependencies.ts:88-103 | Each of these lines carries no edge: one starting with `}` or `digraph`, one without `->`, and one whose text right of `->` is empty. |
| ParserProperties.NoEdgeKeepsGraph | src/conanDependencies.ts:88-103 | A line that carries no edge leaves the mapping unchanged. |
| ParserProperties.ParseLinesSnoc | src/conanDependencies.ts:87 | The lines are processed in order: one more line is processed against the mapping built from the lines before it. |
| ParserProperties.NoEdgeLineIrrelevant | src/conanDependencies.ts:87-120 | Removing a line that carries no edge from anywhere in the text does not change the parsed mapping. |
| ParserProperties.LineEdgeOk | src/conanDependencies.ts:91-113 | A line's edge has a quote-free parent and well-formed child labels. |
| ParserProperties.AddEdgePreservesWellFormed | src/conanDependencies.ts:98-116 | Adding a well-formed edge keeps the mapping well formed. |
| ParserProperties.ParseLinesWellFormed | src/conanDependencies.ts:87-120 | Any prefix of the lines parses to a well-formed mapping: quote-free keys, only non-empty lists, well-formed child labels. |
| ParserProperties.ParseWellFormed | src/conanDependencies.ts:82-122 | Any file text parses to a well-formed mapping. |
| ParserProperties.ProcessLineGrows | src/conanDependencies.ts:98-116 | A line never removes a key and never shortens a list. |
| ParserProperties.ParseLinesGrows | src/conanDependencies.ts:87-120 | Later lines keep every key, and each earlier list is a prefix of the later one. |
| ParserProperties.ProcessLineKeys | src/conanDependencies.ts:98-116 | A line makes `k` a key exactly when `k` already was one or the line is an edge with parent `k` and at least one child. |
| ParserProperties.ParseLinesPrefixStep | src/conanDependencies.ts:87 | The mapping after the first `i + 1` lines is line `i` processed against the mapping after the first `i` lines. |
| ParserProperties.KeySource | src/conanDependencies.ts:98-116 | Every key of a parsed mapping has a line that names it as the parent and lists at least one child. |
| ParserProperties.LineAddsKey | src/conanDependencies.ts:114-116 | A line that lists children for `k` makes `k` a key as soon as it is processed. |
| ParserProperties.ParseLinesKeepsKey | src/conanDependencies.ts:87-120 | A key present after some of the lines is still present after all of them. |
| ParserProperties.ContributingLineAddsKey | src/conanDependencies.ts:87-120 | A line that lists children for `k` makes `k` a key of the whole parse. |
| ParserProperties.ParseLinesKeys | src/conanDependencies.ts:87-120 | The keys of a parsed mapping are exactly the parents of the lines that list at least one child, in both directions. |
| ParserProperties.ParseEmptyText | src/conanDependencies.ts:85-86 | An empty file gives an empty mapping. |
| JsString.JoinSplit | src/conanDependencies.ts:85 | `split` loses nothing: joining the pieces with the separator gives back the text. |
| JsString.SplitFirstIsPrefix | src/conanDependencies.ts:89-91 | The first piece of a split is a prefix of the text. |
| JsString.SplitPiecesExcludeSep | src/conanDependencies.ts:107 | No piece of a split contains the separator. |
| JsString.SplitSingleIffAbsent | src/conanDependencies.ts:89-102 | A split gives a single piece exactly when the separator does not occur, so `split[1]` is undefined exactly then. |
| JsString.IncludesChar | src/conanDependencies.ts:107 | A text includes a one-character string exactly when that character occurs in it. This is how a piece of the split on `' '` is known to hold no space. |
| JsString.StartsWith | src/conanDependencies.ts:88 | `startsWith`: the text begins with the prefix. |
| JsString.Includes | src/conanDependencies.ts:94 | `includes`: the substring occurs at some position of the text. |
| JsString.IndexOf | src/conanDependencies.ts:92 | The result is the first position of the character, or -1 exactly when the character is absent. |
| JsString.DeleteFirst | src/conanDependencies.ts:92 | Replacing the first occurrence of an absent character changes nothing. |
| JsString.DeleteFirstRemovesFirst | src/conanDependencies.ts:104-105 | When the character occurs, the result drops it at its first position, and the text before and after that position is kept. |
| JsString.DeleteFirstKeepsOthers | src/conanDependencies.ts:92 | Replacing the first occurrence removes at most one copy of the character, and nothing else. |
| JsString.DeleteAll | src/conanDependencies.ts:93 | After replacing every occurrence, the character is absent. |
| JsString.DeleteAllKeepsOthers | src/conanDependencies.ts:106 | Replacing every occurrence removes exactly all copies of that character. Every other character is kept. |
| JsString.TrimStart | src/conanDependencies.ts:110 | The result is a suffix of the text that does not start with white space. |
| JsString.TrimStartCutsWhiteSpace | src/conanDependencies.ts:110 | Everything trimmed from the start is white space. |
| JsString.TrimEnd | src/conanDependencies.ts:110 | The result is a prefix of the text that does not end with white space. |
| JsString.TrimEndCutsWhiteSpace | src/conanDependencies.ts:110 | Everything trimmed from the end is white space. |
| JsString.Trim | src/conanDependencies.ts:92 | The result has no white space at either end. |
| JsString.TrimIsSlice | src/conanDependencies.ts:92 | The result is a contiguous slice of the text with only white space cut on both sides. |
| JsString.TrimKeepsExclusion | src/conanDependencies.ts:110 | Trimming never introduces a character that was absent. |
| JsString.Split | src/conanDependencies.ts:85 | A split always has at least one piece. |

## Left out

- `createConanInfo` (lines 60-80) runs the `conan info` / `conan install` processes and shows error messages. That is process and editor I/O. The model starts from the text of the `.dot` file.
- The file read in `readConanInfo` (lines 83-84) is I/O. The file's contents are the method's parameter.
- `extension.ts` (command registration and the editor's view wiring) is not part of this model.
- The change-event machinery (`EventEmitter`, `onDidChangeTreeData`, subscribers) is out of scope. A refresh is recorded as an entry in `refreshed`.
- `getTreeItem`, the `ConanDependency` tree-item class's tooltip and the `Promise` around `getChildren`'s result are editor plumbing. `GetChildren` returns the list the promise resolves to.
- `setProfile`, the `workspace` and `profile` fields and the two file paths only feed `createConanInfo`. They are left out for the same reason.
- Strings are sequences of Unicode characters, while JavaScript strings are UTF-16 code units. The two differ only outside the Basic Multilingual Plane, and no character the parser inspects lies there.
- The list read from the mapping is modelled as a value, not as the shared array the source pushes into (lines 99-111). Each key owns its own array, and the array is written back under the same key whenever it is non-empty. The aliasing is therefore not observable, and the model does not capture it.
- Parent labels are cleaned in the code's order: first quote removed, then trim, then every quote removed.
- `ConanGraph.KeptLabels` states only a length bound in its own contract. Order, trimming and the filter are what `ConanDependencies.AppendTokens` and `ConanGraph.ChildLabelsOk` state about it.
