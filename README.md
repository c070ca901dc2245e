# NotebookLM mind-map expander, modelled in Dafny

This project models the deterministic core of the NotebookLM mind-map browser
extension. The page is replaced by abstract values, and the browser by oracles.

- **Selector polling.** `SafeClicker` and the element detector wait until a
  deadline for the first selector, in priority order, whose match passes a
  gate. A selector query is an oracle that throws, finds nothing or finds an
  element. The clock is a reading that only moves forward.
- **Clicking.** `safeClick`, the `click` target and `verifyClick`.
- **The bundled content script** (`dist/expander.js`):
  - the container cache;
  - the depth-bounded toggle walk and collapse-all;
  - the text outline;
  - search highlighting;
  - the toolbar guard and the theme flag.
- **The `NotebookLMExpander` object** (`src/expander.ts`):
  - its fields `container`, `retryCount` and `isExpanded`;
  - the deduplicated, counted per-node toggling and its validity predicates;
  - the toolbar-first fallback of expand-all and collapse-all;
  - `retry`, the settings default, the hotkeys, the mind-map check and the
    text export.
- **The exporters.** The Markdown and CSV contents are built with `+=` in
  loops. `flattenNodes` pushes into a shared array. `saveAs` is a download
  sink.
- **Search.** `initSearch`, the filter chain of `search` over the Fuse result
  (a Fuse oracle), and `highlightMatches`.
- **The insights analyser:**
  - node text collection and dedup;
  - depth estimation;
  - `buildHierarchy` and `findParentNode`;
  - the pre-order texts;
  - keywords, main branches, connections, missing topics and the summary;
  - the analysis outline;
  - the hash-keyed result cache of `performAnalysis`.

Modules follow the source files:

| module | file | source file |
|---|---|---|
| `Dom` | `dom.dfy` | elements, selector answers, the polling clock |
| `SafeClicker` | `safe_clicker.dfy` | `src/safeClicker.ts` |
| `ElementDetector` | `element_detector.dfy` | `src/elementDetector.ts` |
| `DistExpander` | `dist_expander.dfy` | `dist/expander.js` |
| `Expander` | `expander.dfy` | `src/expander.ts` |
| `Exporters` | `exporters.dfy` | `src/exporting/exporters.ts` |
| `Search` | `search.dfy` | `src/search.ts` |
| `InsightHierarchy` | `insight_hierarchy.dfy` | `src/aiInsights.ts` (structure extraction, hierarchy, traversals) |
| `InsightAnalysis` | `insight_analysis.dfy` | `src/aiInsights.ts` (keywords, insights, cache) |

`Text`, `Seqs` and `Wrappers` hold generic helpers:

- the JavaScript string operations used (`trim`, `toLowerCase` on ASCII,
  `split(/\s+/)`, `join`, `repeat`, `startsWith`, `includes`, number printing);
- sequence filtering, reversal, stable sorting by a key, and subsequences;
- `Option`.

Where the source changes state, the model does too:

- Classes hold the fields that the source updates in place: `Page`,
  `NotebookLMExpander`, `AIInsightsAnalyzer`, `SearchIndex`, `RowBuffer` and
  `Downloads`.
- Loops are `while`/`for` loops with invariants.
- Each method is proved against a specification function. The properties are
  proved about those functions.

Clicks are recorded in a log field (`clicks`). The log is what lets the model
state how many clicks happened, in which order and at which depth.

## Model

| member | source | states |
|---|---|---|
| SafeClicker.IsElementVisible | src/safeClicker.ts:76-89 | An element is visible iff its box has positive width and height, and its style is not `display: none`, not `visibility: hidden` and not `opacity: 0`. |
| SafeClicker.VerifyClick | src/safeClicker.ts:24-28 | A click counts as verified iff the target or its parent element has a `text.collapse-symbol` descendant. |
| SafeClicker.ClickTarget | src/safeClicker.ts:14-21 | The event goes to the parent exactly when the element is a `text` glyph with a parent, and otherwise to the element itself. |
| SafeClicker.SafeClick | src/safeClicker.ts:91-115 | Success holds iff the element is present, visible, and not both the direct click and the dispatched event throw. A failure activates nothing. A success activates the element exactly once, by a direct click unless `click()` throws. |
| SafeClicker.FirstVisibleSpec | src/safeClicker.ts:37-47 | A pass finds `e` iff some selector's answer is the visible match `e` and no earlier answer is a visible match. |
| SafeClicker.ThrowingSelectorSkipped | src/safeClicker.ts:43-46 | Inserting a throwing selector anywhere does not change what a pass finds. |
| SafeClicker.InvisibleMatchSkipped | src/safeClicker.ts:40-42 | Inserting an invisible match anywhere does not change what a pass finds: the later selectors are still tried. |
| SafeClicker.ScanSelectors | src/safeClicker.ts:37-47 | The `for` loop with its early return finds exactly what the pass specification gives. |
| SafeClicker.WaitForElementIn | src/safeClicker.ts:34-50 | A found element is what the first successful pass found, and that pass started before the deadline. `null` means every pass that starts before the deadline finds nothing. An empty selector list gives `null`. |
| SafeClicker.WaitForElement | src/safeClicker.ts:30-51 | The same contract over the whole document, with the default timeout of 10000 ms. |
| SafeClicker.WaitForElementInContext | src/safeClicker.ts:53-74 | The same contract inside the context element, with the default timeout of 5000 ms. |
| SafeClicker.GroupPass | src/safeClicker.ts:124-136 | A group pass answers a group index inside the group list, from the current group on. |
| SafeClicker.GroupPassSpec | src/safeClicker.ts:124-136 | The reported group's selectors find the reported element, and every earlier group finds nothing. When nothing is reported, no group finds anything. |
| Text.Utf16Length | src/search.ts:68 | JavaScript's `length`: between the number of characters and twice it. |
| Text.Utf16LengthBmp | dist/expander.js:104 | Within the Basic Multilingual Plane, `length` counts characters. |
| SafeClicker.WaitForAnyElement | src/safeClicker.ts:117-140 | `0 <= group < selectorGroups.length`. The answer is that of the first group pass that succeeds, and that pass started before the deadline. `null` means no pass before the deadline finds anything. |
| ElementDetector.SelectorList | src/elementDetector.ts:9-22 | The container selector list has twelve entries, with the `MindMapViewer` class prefix first. |
| ElementDetector.FirstMatchSpec | src/elementDetector.ts:36-41 | A pass finds `e` iff some selector's answer is the match `e` and no earlier selector matched. There is no visibility gate. |
| ElementDetector.ThrowingSelectorIgnored | src/elementDetector.ts:37-40 | Inserting a throwing selector anywhere does not change what a pass finds. |
| ElementDetector.WaitForContainer | src/elementDetector.ts:30-46 | A found container is the match of the first successful pass, before the timeout. `null` means no pass before the timeout matched, and exactly one warning is logged in that case and none otherwise. A container present at the first pass is returned with no interval wait. |
| Dom.Results | src/safeClicker.ts:37-39 | One pass asks every selector once, in list order. |
| Dom.WaitAtLeast | src/safeClicker.ts:48 | A polling wait lasts at least the interval, and at least 1 ms. |
| Dom.ReadingGrows | src/safeClicker.ts:36-49 | Clock readings never go back. Each pass adds at least one polling interval, so every deadline loop ends. |
| Dom.SelfAndAncestors | src/expander.ts:298-299 | The chain that `closest` walks starts at the element itself. |
| DistExpander.MatchingButtons | dist/expander.js:30 | Every selected button's `aria-label` starts with the prefix, and no button is invented. |
| DistExpander.MatchingButtonsSpec | dist/expander.js:30 | A button is selected iff it is one of the node's direct buttons and its label starts with the prefix. |
| DistExpander.ClicksAt | dist/expander.js:31-32 | One click per button, in order, at the given depth. |
| DistExpander.Toggle | dist/expander.js:26-43 | The walk clicks nothing iff it has reached the depth bound (`maxDepth != -1 && currentDepth >= maxDepth`) or the node has no matching button. |
| DistExpander.PerButton | dist/expander.js:31-42 | The per-button loop clicks something iff buttons remain. |
| DistExpander.ToggleWithinWalk | dist/expander.js:26-43 | Every click is on a button labelled with the prefix, at or below the starting depth, and strictly above a bound other than -1. With `maxDepth = 0` nothing is clicked. Completeness is stated by `ToggleClicksOwnButtons` and `ExpandReachesChildren`. |
| DistExpander.ClicksAtDepth | dist/expander.js:31-32 | The clicks of a log made at one depth: each is in the log and carries that depth. |
| DistExpander.ClicksAtDepthAppend | dist/expander.js:31-42 | Selecting one depth from two logs in a row selects from each in turn. |
| DistExpander.ClicksAtDepthDeeper | dist/expander.js:38 | A log made entirely below a depth has no click at that depth. |
| DistExpander.ToggleClicksOwnButtons | dist/expander.js:30-32 | Within the depth bound, the walk's clicks at its own depth are exactly the node's matching buttons, each clicked once, in document order. |
| DistExpander.PerButtonOwnClicks | dist/expander.js:31-42 | The per-button loop from button `j` clicks, at its own depth, exactly the buttons from `j` on, in order: the children's walks click only deeper. |
| DistExpander.ExpandReachesChildren | dist/expander.js:33-39 | Within the bound, when the node has an Expand button, every click of a child's walk at the next depth is also a click of the node's walk. |
| DistExpander.ToggleAllContains | dist/expander.js:37-39 | Every click of the walk of child `k` is a click of the walk over the children from `i <= k` on. |
| DistExpander.PerButtonWithinWalk | dist/expander.js:31-42 | The same bound holds for the clicks of the per-button loop and of the recursive walks inside it. |
| DistExpander.ToggleAllWithinWalk | dist/expander.js:37-39 | The same bound holds for the walks of all children. |
| DistExpander.OnlyExpandDescends | dist/expander.js:33-41 | For any prefix other than "Expand", the walk clicks exactly the node's own matching buttons, in order, and never descends. |
| DistExpander.PerButtonShallow | dist/expander.js:31-42 | With a prefix other than "Expand", the loop from button `j` on clicks exactly the remaining buttons. |
| DistExpander.PreorderAppend | dist/expander.js:61-74 | The pre-order of two sibling lists is the pre-order of the first followed by that of the second. |
| DistExpander.PreorderLength | dist/expander.js:61-74 | The pre-order visits every node exactly once: its length is the node count. |
| DistExpander.PreorderOne | dist/expander.js:61-74 | A node comes first in the pre-order, followed by its children one level deeper. |
| DistExpander.OutlineLinesAppend | dist/expander.js:63-66 | The outline of two runs of nodes is the concatenation of their outlines. |
| DistExpander.NodeOutlineIsPreorder | dist/expander.js:61-74 | The recursive `walk` emits exactly one line per labelled node, in document pre-order, indented two spaces per nesting level. |
| DistExpander.ChildrenOutlineIsPreorder | dist/expander.js:67-73 | Walking `children[i..]` emits the pre-order lines of those subtrees. |
| DistExpander.UnlabelledSubtreeIsSilent | dist/expander.js:62-66 | A subtree without any label element adds nothing to the outline. |
| DistExpander.UnlabelledNodeBorrowsLabel | dist/expander.js:62 | A node without its own label reads the first label below it, because `querySelector` searches the whole subtree. |
| DistExpander.OutlineLinesBreaks | dist/expander.js:63-66 | When no label contains a line break, the outline has exactly one line break per labelled node. |
| DistExpander.LabelledLine | dist/expander.js:62-66 | A labelled node without surrounding blanks emits `'  '*depth + '- ' + label + '\n'`. |
| DistExpander.FourNodeOutline | dist/expander.js:58-80 | For any four blank-free labels, the four-node page gives the four lines indented by depth, with the last line break trimmed away. |
| DistExpander.FixtureLines | test/new.test.ts:77-82 | The lines of the test labels are the expected test lines. |
| DistExpander.OutlineOfFixture | test/new.test.ts:77-82 | The outline of the test page is exactly `"- Root\n  - Child 1\n    - Grandchild 1\n  - Child 2"`. |
| DistExpander.BlankLabelIsSilent | dist/expander.js:62-63 | A label that trims to nothing emits no line. |
| DistExpander.SilentSingleParent | dist/expander.js:61-74 | A silent node with a single child emits that child's outline one level deeper, and nothing else. |
| DistExpander.LeafOutline | dist/expander.js:61-74 | A leaf emits its own line only. |
| DistExpander.BlankRootLosesFirstIndent | dist/expander.js:79 | The final `trim` also strips the indentation of the first emitted line: under a blank root, the first child's line starts with `- `. |
| DistExpander.CollapseButtons | dist/expander.js:53 | Every button collected for collapse-all carries a "Collapse" label. |
| DistExpander.NodeIdsSpec | dist/expander.js:101-103 | The set of nodes whose highlight is cleared is exactly the set of visited nodes. |
| DistExpander.MatchIdsSpec | dist/expander.js:105-110 | A node is highlighted iff it is visited and its label, lower-cased, contains the query. |
| DistExpander.ContainsExtended | dist/expander.js:107 | A string that contains `q + x` contains `q`. |
| DistExpander.LongerQueryNarrows | dist/expander.js:105-110 | Typing more of the query can only shrink the set of highlighted nodes. |
| DistExpander.Page.constructor | dist/expander.js:11-13 | The script starts with no cached container, the light theme, no toolbar, no clicks and no highlights. |
| DistExpander.Page.EnsureContainer | dist/expander.js:17-25 | A still-attached cached container returns true with the cache unchanged. Otherwise the result is whether the query found an element, and the cache changes only to that element. On failure the cache is untouched. |
| DistExpander.Page.WalkAndToggle | dist/expander.js:26-43 | The click log grows by exactly the clicks of `Toggle`. |
| DistExpander.Page.WalkChildren | dist/expander.js:36-39 | The click log grows by the walks of every child, in order, one level deeper. |
| DistExpander.Page.Expand | dist/expander.js:44-50 | Without a cached container or a first node, nothing is clicked. Otherwise the clicks are the Expand walk from the first node with the chosen depth bound. |
| DistExpander.AstralQueryIsSearched | dist/expander.js:104 | A single character outside the Basic Multilingual Plane counts as two code units, so it is searched for. |
| DistExpander.Page.CollapseAll | dist/expander.js:51-57 | Without a cached container, nothing is clicked. Otherwise every Collapse button is clicked once, in reverse document order. |
| DistExpander.Page.ClickBackwards | dist/expander.js:54-56 | The buttons are clicked from last to first. |
| DistExpander.Page.WalkLine | dist/expander.js:62-66 | One node's outline line is appended. |
| DistExpander.Page.Walk | dist/expander.js:61-74 | The nested `walk` appends exactly the node's pre-order outline. |
| DistExpander.Page.GenerateOutline | dist/expander.js:58-80 | Without a container the result is `"Mind map not found."`. Otherwise it is the trimmed outline of the first node. |
| DistExpander.Page.HandleSearch | dist/expander.js:98-111 | Without a container, nothing changes. Otherwise every visited node's highlight is cleared. A query shorter than 2 UTF-16 code units (JavaScript's `length`) highlights nothing. Any other query highlights exactly the visited nodes whose lower-cased label contains it. |
| DistExpander.Page.InjectToolbar | dist/expander.js:112-162 | An existing toolbar means nothing changes. Otherwise the container is ensured, and a toolbar is added to it only when a container is available. Afterwards a toolbar exists whenever one existed or a container was found. |
| DistExpander.Page.ToggleTheme | dist/expander.js:150-154 | The theme button flips `isDarkTheme`. |
| DistExpander.ExpandFixtureClicksTwice | test/new.test.ts:84-92 | On the assumed test page, with Expand buttons on Root and Child 1, expanding clicks exactly those two buttons. The button placement is chosen to match the test's count of two clicks, because `test.html` is not part of this model. |
| DistExpander.ExpandFixtureOneLevel | dist/expander.js:26-29 | With depth bound 1, only the root's button is clicked on the test page. |
| DistExpander.ChildrenWalkedPerButton | dist/expander.js:31-41 | The children are walked again after each matching button, so two Expand buttons click a child's button twice. |
| Expander.ClosestInSidebarSpec | src/expander.ts:249 | `closest('.sidebar, [class*="sidebar"], nav')` succeeds iff the element or one of its ancestors is such an element. |
| Expander.NodeButtonIsMindMapButton | src/expander.ts:246-252 | A valid node button is a valid toolbar button. Neither check accepts any element that is, or lies inside, a sidebar or navigation element. |
| Expander.NodeSelectors | src/expander.ts:256-261 | There are four node selectors for the target state. |
| Expander.NodeLists | src/expander.ts:266-267 | One list of candidates per node selector, in selector order. |
| Expander.ToggleStepCountsOnce | src/expander.ts:269-285 | One candidate keeps the invariant: the count equals the number recorded, every recorded node is processed, valid and clicked, and no node is recorded twice. At most one node is added. |
| Expander.ToggleListCountsOnce | src/expander.ts:269-285 | The invariant holds over a whole node list, and at most one node is recorded per candidate. |
| Expander.ToggleNodesCountsOnce | src/expander.ts:263-286 | After all four lists, every toggled node was valid, clicked successfully and counted exactly once. The count never exceeds the number of candidates. |
| Expander.SecondSightingSkipped | src/expander.ts:270 | A node matched by a second selector is not clicked again. Its first sighting counts it once. |
| Expander.NodeTextFirstWins | src/expander.ts:335-342 | The node's text is the trimmed text of the first text selector whose element has text content. |
| Expander.NodeTextSkips | src/expander.ts:336-342 | Selectors without text content are passed over. |
| Expander.OnlyFirstRootGroupUsed | src/expander.ts:369-375 | Only the first root selector that finds any roots is walked. Later selectors are ignored. |
| Expander.FirstRootsSkips | src/expander.ts:369-375 | Root selectors that find nothing are passed over. |
| Expander.ChildFoundTwiceIsWalkedTwice | src/expander.ts:355-358 | A child found by two child selectors is walked, and emitted, twice. |
| Expander.HeaderShape | src/expander.ts:324 | The export header is `'NotebookLM Mind Map Export\n'`, then 30 `'='` characters, then `'\n\n'` (59 characters). |
| Expander.AutoExpand | src/expander.ts:447-470 | `autoExpand` is false iff storage answered and the stored value is exactly `false`. Missing storage, a storage error and a thrown access error all give true. |
| Expander.Hotkey | src/expander.ts:433-445 | Ctrl+Shift+E/e expands, Ctrl+Shift+C/c collapses, and nothing happens without both modifiers. |
| Expander.RootGroups | src/expander.ts:362-370 | One answer per root selector, in order. |
| Expander.IsValidMindMapButton | src/expander.ts:246-252 | A toolbar button is valid iff it or an ancestor is a mind-map container or studio panel, and neither it nor an ancestor is a sidebar or `nav`. |
| Expander.IsValidNodeButton | src/expander.ts:293-306 | A node button is valid iff it is a `BUTTON` inside the mind-map context and outside any sidebar or `nav`, and it has `aria-expanded` or a chevron, arrow or expand-icon descendant. |
| Expander.FirstFind | src/safeClicker.ts:34-50 | Pass `k` starts before the deadline, finds an element, and no earlier pass does. |
| Expander.NothingFound | src/safeClicker.ts:34-50 | No pass that starts before the deadline finds anything. |
| Expander.ToolbarAnswer | src/expander.ts:239-243 | The value `findToolbarButton` returns: the valid first find, or `null` when the first find is invalid or there is none. |
| Expander.FirstFindUnique | src/safeClicker.ts:34-50 | At most one pass is the first to find something. |
| Expander.ToolbarAnswerUnique | src/expander.ts:239-243 | The toolbar answer is determined by the page: two answers are equal. |
| Expander.ToolbarOnFirstPass | src/expander.ts:239-243 | A valid toolbar button found by the first pass is the answer. |
| Expander.NotebookLMExpander.ControlsPresent | src/expander.ts:152 | `getElementById('nlm-expander-controls')` finds the controls iff they were appended to a container still in the document. |
| Expander.NotebookLMExpander.constructor | src/expander.ts:52-62 | No container, zero retries, not expanded, no controls and no clicks. |
| Expander.NotebookLMExpander.Retry | src/expander.ts:472-478 | Below `MAX_RETRIES` (10), the counter goes up by one and the next attempt is scheduled after `RETRY_DELAY * retryCount` ms. At the bound, nothing happens. The counter never exceeds 10. |
| Expander.NotebookLMExpander.InjectControls | src/expander.ts:151-176 | The controls are appended to the cached container when there is one and no controls are in the document, as `getElementById` decides; otherwise nothing changes. Afterwards a cached container that is in the document has the controls. |
| Expander.NotebookLMExpander.ToggleNodeList | src/expander.ts:269-285 | The loop over one node list updates the processed set, the count and the click log as the spec run does. |
| Expander.NotebookLMExpander.ToggleOne | src/expander.ts:270-284 | One candidate updates the state as `ToggleStep` does. |
| Expander.NotebookLMExpander.VisitCandidate | src/expander.ts:270-276 | A candidate is counted iff it is unprocessed, a valid node button, and its safe click succeeds. Only then does it add its activations. |
| Expander.NotebookLMExpander.ToggleNodes | src/expander.ts:254-291 | The count and the clicks are those of the spec run over the four node lists. Afterwards `isExpanded == expand`, however many nodes were toggled. |
| Expander.NotebookLMExpander.FindToolbarButton | src/expander.ts:216-244 | The answer is the element of the first pass that finds one within 2000 ms, when it is a valid mind-map button. `null` means that element is not valid or no pass before the deadline finds anything. |
| Expander.NotebookLMExpander.ExpandAll | src/expander.ts:178-195 | When the toolbar button's safe click succeeds, only that click happens. Otherwise the per-node toggle runs with target state "false". Afterwards the map counts as expanded. The toolbar button tried is the one `findToolbarButton` determines, and the clicks grow by `AllClicks` for it. |
| Expander.NotebookLMExpander.CollapseAll | src/expander.ts:197-214 | The same fallback order with target state "true". Afterwards the map counts as collapsed. The toolbar button tried is the one `findToolbarButton` determines, and the clicks grow by `AllClicks` for it. |
| Expander.AllClicks | src/expander.ts:178-214 | The clicks of expand-all or collapse-all for a given toolbar answer. A successful toolbar click is the only click, and it is on the toolbar button. |
| Expander.NotebookLMExpander.PressToggleButton | src/expander.ts:169-171 | The controls' toggle button collapses an expanded map and expands a collapsed one. The clicks are exactly those of collapse-all or expand-all for the toolbar answer the page determines. |
| Expander.NotebookLMExpander.OnKeyDown | src/expander.ts:433-445 | The expand hotkey leaves the map expanded and the collapse hotkey leaves it collapsed, with exactly the clicks of expand-all or collapse-all for the toolbar answer the page determines. Any other key changes nothing. |
| Expander.NotebookLMExpander.CheckForMindMap | src/expander.ts:134-149 | The found container is what the first successful pass within 1000 ms found; `null` means no pass before the deadline finds anything. Only a found container different from the cached one is cached. It gets the controls unless the document already has them and, if `autoExpand` is set, an expand-all: the map counts as expanded and the clicks grow by exactly expand-all's clicks for the toolbar answer the page determines. Otherwise nothing changes. |
| Expander.NotebookLMExpander.Walk | src/expander.ts:326-359 | The nested `walk` appends exactly `WalkText`: the node's line, then every child group in order, one level deeper. |
| Expander.NotebookLMExpander.FindNodeText | src/expander.ts:335-342 | The text-selector loop with `break` computes the first-wins node text. |
| Expander.NotebookLMExpander.WalkGroup | src/expander.ts:355-358 | The children of one child selector are walked in order, one level deeper. |
| Expander.NotebookLMExpander.WalkRoots | src/expander.ts:372 | Each root of the group is walked at depth 0, in order. |
| Expander.NotebookLMExpander.ExtractMindMapText | src/expander.ts:321-378 | Without a container the result is `'Mind map not found'`. Otherwise it is the header followed by the walk of the first non-empty root group. |
| Exporters.RowOf | src/exporting/exporters.ts:52 | A row keeps exactly the node's `id`, `text` and `depth`. |
| Exporters.FlattenOne | src/exporting/exporters.ts:51-56 | A node's row comes before the rows of its subtrees. |
| Exporters.FlattenAppend | src/exporting/exporters.ts:57-59 | Flattening two sibling lists gives the rows of the first, then the rows of the second. |
| Exporters.FlattenLength | src/exporting/exporters.ts:49-61 | The flattened list has one row per node. |
| Exporters.Downloads.SaveAs | src/exporting/exporters.ts:22 | `saveAs` adds exactly one downloaded file and shows no alert. |
| Exporters.Downloads.Alert | src/exporting/exporters.ts:79 | `alert` adds one message and saves nothing. |
| Exporters.Downloads.constructor | src/exporting/exporters.ts:2 | No file has been downloaded and no alert shown yet. |
| Exporters.ExportJson | src/exporting/exporters.ts:18-24 | The JSON exporter saves the stringified data once, as `mind-map.json` with type `application/json`. |
| Exporters.MarkdownLinesAppend | src/exporting/exporters.ts:31-33 | The Markdown of two runs of rows is the concatenation of their Markdown. |
| Exporters.MarkdownLinesOne | src/exporting/exporters.ts:30 | The Markdown of one row is its line. |
| Exporters.FormatNode | src/exporting/exporters.ts:28-35 | `formatNode` builds exactly the lines of the node's pre-order subtree. Each line is `'  '*depth + '* ' + text + '\n'`, with the stored depth. |
| Exporters.MarkdownContent | src/exporting/exporters.ts:37-41 | The content is `'# Mind Map Export\n\n'` followed by the lines of every root's subtree, in order. |
| Exporters.ExportMarkdown | src/exporting/exporters.ts:37-44 | The Markdown content is saved once, as `mind-map.md` with type `text/markdown`. |
| Exporters.MarkdownLinesBreaks | src/exporting/exporters.ts:30 | With texts free of line breaks, the Markdown has exactly one line break per row. |
| Exporters.MarkdownLineBreak | src/exporting/exporters.ts:30 | One row's line holds exactly one line break. |
| Exporters.MarkdownOneLinePerNode | src/exporting/exporters.ts:37-41 | After the header, there is exactly one Markdown line per node of the forest. |
| Exporters.MarkdownLineAt | src/exporting/exporters.ts:30-33 | Row `k`'s line sits between the lines of the rows before it and those after it. |
| Exporters.RowBuffer.constructor | src/exporting/exporters.ts:50 | `flattened` starts empty. |
| Exporters.RowBuffer.Push | src/exporting/exporters.ts:52 | `flattened.push(row)` appends one row. |
| Exporters.Traverse | src/exporting/exporters.ts:51-56 | The inner `traverse` pushes exactly the node's pre-order rows onto the shared buffer. |
| Exporters.FlattenNodes | src/exporting/exporters.ts:49-61 | `flattenNodes` returns the pre-order rows: parent before children, siblings in order, one row per node. |
| Exporters.CsvLinesAppend | src/exporting/exporters.ts:66-68 | The CSV of two runs of rows is the concatenation of their CSV. |
| Exporters.CsvContent | src/exporting/exporters.ts:63-68 | The content is `'id,text,depth\n'` followed by one `"id","text",depth` line per flattened row, in order, with no quote escaping. |
| Exporters.ExportCsv | src/exporting/exporters.ts:63-71 | The CSV content is saved once, as `mind-map.csv` with type `text/csv`. |
| Exporters.CsvLinesBreaks | src/exporting/exporters.ts:67 | With fields free of line breaks, the CSV lines hold one line break per row. |
| Exporters.CsvLineBreak | src/exporting/exporters.ts:67 | One row's CSV line holds exactly one line break. |
| Exporters.CsvOneLinePerNode | src/exporting/exporters.ts:63-68 | After the header, there is exactly one CSV line per node of the forest. |
| Exporters.CsvLineNotInjective | src/exporting/exporters.ts:67 | Because quotes are not escaped, two different rows can give the same CSV line. |
| Exporters.ExportPdf | src/exporting/exporters.ts:75-81 | The PDF placeholder saves no file and shows one alert. |
| Search.Wrap | src/search.ts:77 | The output has one `{item}` per filtered item, in order. |
| Search.DatePresets | src/search.ts:50-61 | The presets keep `createdAt >= now` minus 86 400 000, 604 800 000 or 2 592 000 000 ms. `'all'` and an absent range keep everything. |
| Search.KeepMatchingSpec | src/search.ts:50-75 | An item survives the filter chain iff it is in the base list and passes every active filter, so the chain is a conjunction. |
| Search.KeepMatchingIsSubsequence | src/search.ts:50-75 | The survivors are a subsequence of the base list: nothing is added or reordered. |
| Search.NoFilterKeepsAll | src/search.ts:50-75 | With no active filter, the base list is kept whole. |
| Search.ExtraTagNarrows | src/search.ts:71-75 | Requiring one more tag lets no more items through, and each survivor carries that tag. |
| Search.SearchIndex.constructor | src/search.ts:20-21 | Before `initSearch` there are no items and no index. |
| Search.SearchIndex.InitSearch | src/search.ts:27-30 | Both the item list and the index are replaced by the new items. |
| Search.SearchIndex.Search | src/search.ts:38-78 | A non-empty query before `initSearch` gives `[]`. A non-empty query filters the Fuse results. An empty query filters all indexed items. Each survivor is wrapped as `{item}`. |
| Search.DateStage | src/search.ts:50-61 | The date step keeps exactly the items that pass the date filter. |
| Search.TypeStage | src/search.ts:63-65 | The type step keeps exactly the items that pass the type filter. |
| Search.LengthStage | src/search.ts:67-69 | The length step keeps exactly the items that pass the length filter, measuring content in UTF-16 code units. |
| Search.PassesLength | src/search.ts:67-69 | An active length filter passes an item iff its content has at least that many UTF-16 code units. |
| Search.AstralContentCountsTwice | src/search.ts:68 | A single character outside the Basic Multilingual Plane passes a minimum length of 2. |
| Search.TagStage | src/search.ts:71-75 | The tag step keeps exactly the items that pass the tag filter. |
| Search.HighlightMatches | src/search.ts:92-103 | Length and order are preserved. Each copy keeps every field of its item, and the highlighted title and content equal the originals. |
| InsightHierarchy.TextItems | src/aiInsights.ts:94-99 | Every collected item is trimmed, non-empty and not one of the glyphs `>`, `<`, `∨`, `∧`. |
| InsightHierarchy.JoinAppend | src/aiInsights.ts:97 | Joining one more item adds the separator and the item. |
| InsightHierarchy.SpacedJoin | src/aiInsights.ts:97-101 | The `content + ' '` accumulation is the space-joined items plus one trailing space. |
| InsightHierarchy.JoinSolid | src/aiInsights.ts:101 | Joining trimmed non-empty items gives a trimmed non-empty text, so the final `trim` changes nothing more. |
| InsightHierarchy.CollectNodeText | src/aiInsights.ts:90-101 | The loop and `trim` give exactly the space-joined text items. |
| InsightHierarchy.EstimatedDepth | src/aiInsights.ts:145-157 | The estimated depth is always between 0 and 8. |
| InsightHierarchy.EstimateNodeDepth | src/aiInsights.ts:145-157 | The counting loop stops at ten group ancestors, subtracts 2 and clamps at 0, giving a value in `0..8`. |
| InsightHierarchy.CollectNodes | src/aiInsights.ts:89-116 | The loop with its `processedNodes` set yields exactly the collected nodes. |
| InsightHierarchy.TextsOfAppend | src/aiInsights.ts:104 | Adding a node adds its text to the seen set. |
| InsightHierarchy.CollectedTexts | src/aiInsights.ts:103-104 | The seen texts are exactly the non-empty texts of the elements. |
| InsightHierarchy.CollectedSpec | src/aiInsights.ts:103-115 | A node is collected iff it comes from the first element with its text, and that text is non-empty. |
| InsightHierarchy.CollectedDistinct | src/aiInsights.ts:103-115 | Collected texts are non-empty and pairwise different. |
| InsightHierarchy.LastCandidate | src/aiInsights.ts:189-197 | The answer is a position below the bound. |
| InsightHierarchy.CandidateOneUp | src/aiInsights.ts:192 | For whole-number depths, a candidate is exactly one level up. |
| InsightHierarchy.LastCandidateSpec | src/aiInsights.ts:189-197 | The answer is the last node whose depth is exactly `d-1`. None means there is no such node. |
| InsightHierarchy.FindParentNode | src/aiInsights.ts:189-197 | The backward scan answers the last parent candidate, or null. |
| InsightHierarchy.ParentBefore | src/aiInsights.ts:163-176 | In the depth-sorted list, a node's parent comes before it, one level up. |
| InsightHierarchy.RootsUpToSpec | src/aiInsights.ts:170-179 | Roots are exactly the nodes of depth 0 and the nodes without a parent candidate. |
| InsightHierarchy.ChildrenUpToSpec | src/aiInsights.ts:174-176 | A node's children are exactly the nodes whose parent it is, in sorted order. |
| InsightHierarchy.Pre | src/aiInsights.ts:292-295 | A subtree's pre-order starts at its root and stays within the list. |
| InsightHierarchy.PreList | src/aiInsights.ts:294 | The pre-order of a child list stays above its parent's position. |
| InsightHierarchy.PreListAppend | src/aiInsights.ts:294 | The pre-order of two lists is the pre-order of the first followed by that of the second. |
| InsightHierarchy.AddChildOrdered | src/aiInsights.ts:176 | Pushing a later node onto a parent keeps children after their parents. |
| InsightHierarchy.AddChildPre | src/aiInsights.ts:176 | Pushing the leaf `k` under `p` adds `k` to every subtree that contains `p`, as often as `p` occurs there, and changes nothing else. |
| InsightHierarchy.AddChildPreList | src/aiInsights.ts:176 | The same holds for a list of subtrees. |
| InsightHierarchy.LeafPre | src/aiInsights.ts:292-295 | A leaf's subtree is itself. |
| InsightHierarchy.PlaceRoot | src/aiInsights.ts:171-178 | Making the next node a root places it exactly once. |
| InsightHierarchy.PlaceChild | src/aiInsights.ts:176 | Pushing the next node under a placed parent places it exactly once. |
| InsightHierarchy.ChildrenAt | src/aiInsights.ts:167-181 | The children lists after `k` nodes are the children found so far. |
| InsightHierarchy.ChildrenAtStep | src/aiInsights.ts:170-180 | A new root leaves the children lists alone. A child is pushed onto its parent's list. |
| InsightHierarchy.BuildHierarchy | src/aiInsights.ts:162-184 | `buildHierarchy` sorts by depth and builds exactly the forest that the attachment rule gives. |
| InsightHierarchy.ArrangeBuilt | src/aiInsights.ts:167-181 | After every node, the roots and children are the rule's, and each node so far is placed exactly once. |
| InsightHierarchy.BuiltRoot | src/aiInsights.ts:170-171 | Attaching a root keeps that state. |
| InsightHierarchy.BuiltChild | src/aiInsights.ts:174-176 | Attaching a child keeps that state, and its parent comes before it. |
| InsightHierarchy.ForestHoldsEveryNode | src/aiInsights.ts:162-184 | Every input node ends up exactly once in the forest: the pre-order length is the input count, and the nodes are a permutation of the input. |
| InsightHierarchy.Structure | src/aiInsights.ts:81-124 | The extracted forest is well formed, and its pre-order has one entry per collected node. |
| InsightHierarchy.ExtractMindMapStructure | src/aiInsights.ts:81-124 | Collecting and then arranging the nodes gives that forest. |
| InsightHierarchy.TextsAt | src/aiInsights.ts:293 | One text per position, in order. |
| InsightHierarchy.TextsAtAppend | src/aiInsights.ts:292-297 | The texts of two position lists are the concatenation of their texts. |
| InsightHierarchy.AllTextsCount | src/aiInsights.ts:289-299 | The pre-order text list has one entry per node and holds every node's text. |
| InsightHierarchy.Traverse | src/aiInsights.ts:292-295 | `traverse` appends the subtree's texts in pre-order. |
| InsightHierarchy.TraverseEach | src/aiInsights.ts:294-297 | `forEach(traverse)` appends each subtree's texts in turn. |
| InsightHierarchy.ExtractAllTexts | src/aiInsights.ts:289-299 | `extractAllTexts` returns the pre-order texts of the forest. |
| InsightHierarchy.FormatPreLines | src/aiInsights.ts:412-415 | When no text contains a line break, a subtree's outline has one line per node. |
| InsightHierarchy.FormatListLines | src/aiInsights.ts:414-417 | The same holds for a list of subtrees. |
| InsightHierarchy.FormatMindMapForAnalysis | src/aiInsights.ts:409-419 | The result is one `indent + '- ' + text` line per node, in pre-order, indented two spaces per level. |
| InsightHierarchy.FormatNode | src/aiInsights.ts:412-415 | `traverse(node, indent)` appends the subtree's outline. |
| InsightHierarchy.FormatEach | src/aiInsights.ts:414-417 | `forEach` appends each subtree's outline in turn. |
| InsightHierarchy.FormatListAppend | src/aiInsights.ts:414-417 | The outline of two subtree lists is the concatenation of their outlines. |
| InsightAnalysis.StripPunctuation | src/aiInsights.ts:311 | Only word characters and white space remain, and nothing new is added. |
| InsightAnalysis.WordsOfShape | src/aiInsights.ts:310-313 | Every counted word is lower case, free of punctuation, longer than two characters and not a stop word. |
| InsightAnalysis.AllWordsShape | src/aiInsights.ts:309-318 | The same holds for the words of every text. |
| InsightAnalysis.Entries | src/aiInsights.ts:320 | One entry per distinct word, in first-seen order. |
| InsightAnalysis.TopWords | src/aiInsights.ts:320-323 | At most ten words. |
| InsightAnalysis.CountWord | src/aiInsights.ts:316 | Incrementing a word's count keeps the map equal to the occurrence counts, with first-seen order. |
| InsightAnalysis.CountWords | src/aiInsights.ts:315-317 | Counting the words of one text keeps that invariant. |
| InsightAnalysis.TallyWords | src/aiInsights.ts:307-318 | After the loop, `wordCounts` holds every counted word with its number of occurrences, in first-seen order. |
| InsightAnalysis.CountedEntries | src/aiInsights.ts:320 | Reading the map back in insertion order gives the entries. |
| InsightAnalysis.ExtractKeywords | src/aiInsights.ts:304-324 | The counting and sorting loop computes exactly the keywords. |
| InsightAnalysis.SortedEntry | src/aiInsights.ts:321 | A sorted entry is a counted word with its true count. |
| InsightAnalysis.TopWord | src/aiInsights.ts:321-323 | The `i`-th keyword is the `i`-th sorted word. |
| InsightAnalysis.TopWordsDistinct | src/aiInsights.ts:320-323 | No keyword is listed twice. |
| InsightAnalysis.TopWordsOrdered | src/aiInsights.ts:321 | Keywords come in non-increasing order of occurrence count. |
| InsightAnalysis.TopWordsCover | src/aiInsights.ts:322 | Each of the first ten sorted entries is listed. |
| InsightAnalysis.TopWordsComplete | src/aiInsights.ts:321-322 | A counted word is left out only when there are ten keywords, and it occurs no more often than any of them. |
| InsightAnalysis.TopWordsSpec | src/aiInsights.ts:304-324 | At most ten distinct counted words, in non-increasing count order. Every word left out is outnumbered by all ten. |
| InsightAnalysis.KeywordsShape | src/aiInsights.ts:310-313 | Every keyword is lower case, punctuation-free, longer than two characters and not a stop word. |
| InsightAnalysis.RootNodes | src/aiInsights.ts:330 | The roots of the forest, in order. |
| InsightAnalysis.MainBranches | src/aiInsights.ts:329-334 | At most eight main branches. |
| InsightAnalysis.MainBranchesPrefix | src/aiInsights.ts:330-333 | The main branches are the first texts of the roots of depth at most 1, and all of them when there are fewer than eight. |
| InsightAnalysis.MainBranchesSpec | src/aiInsights.ts:329-334 | Each main branch is the text of a root of depth at most 1. With fewer than eight, every such root's text is one. |
| InsightAnalysis.CommonKeywords | src/aiInsights.ts:367-372 | The result is the subsequence of `keywords` whose members are words of both whitespace-split texts. |
| InsightAnalysis.PairLinkSpec | src/aiInsights.ts:349-357 | A connection pushed for a pair links that pair: they share a keyword, and the reason names the common keywords. |
| InsightAnalysis.RowLinksSpec | src/aiInsights.ts:344-358 | A connection of row `i` comes from some pair `(i, j)` with `j > i`. |
| InsightAnalysis.RowLinkPair | src/aiInsights.ts:344-358 | A connection of row `i` links two texts that share a keyword, the first before the second. |
| InsightAnalysis.LinksSpec | src/aiInsights.ts:343-359 | Every connection links two texts that share a keyword, with `from` before `to` in the pre-order. |
| InsightAnalysis.RowLinksStep | src/aiInsights.ts:344 | One more inner step adds the pair `(i, j)`. |
| InsightAnalysis.ConnectPair | src/aiInsights.ts:345-357 | The inner-loop body pushes a connection iff the pair shares a keyword. |
| InsightAnalysis.ConnectRow | src/aiInsights.ts:344-358 | The inner loop pushes the connections of row `i`, in order. |
| InsightAnalysis.SuggestConnections | src/aiInsights.ts:339-362 | The nested loops yield the first five pair connections in `(i, j)` order. |
| InsightAnalysis.SuggestedConnectionsSpec | src/aiInsights.ts:339-362 | At most five connections. Each links texts `from` before `to` that share a keyword of the list. |
| InsightAnalysis.FirstWord | src/aiInsights.ts:392 | `split(' ')[0]` is the prefix up to the first space. |
| InsightAnalysis.KeptTopics | src/aiInsights.ts:391-393 | A suggestion is kept iff its lower-cased first word is not a keyword. Order is kept. |
| InsightAnalysis.FirstUncoveredSpec | src/aiInsights.ts:377-394 | At most four suggestions, a subsequence of the list, none whose first word is a keyword. With fewer than four, every uncovered suggestion is included. |
| InsightAnalysis.PrefixIsSubsequence | src/aiInsights.ts:393 | `slice(0, n)` is a subsequence. |
| InsightAnalysis.SubsequenceTrans | src/aiInsights.ts:391-393 | A filter then a slice is still a subsequence. |
| InsightAnalysis.SummaryTextOpens | src/aiInsights.ts:403 | The summary opens with "This mind map contains N nodes". |
| InsightAnalysis.SummaryNodeCount | src/aiInsights.ts:399-404 | The count in the summary is the number of distinct non-empty node texts collected from the page. |
| InsightAnalysis.ClientSide | src/aiInsights.ts:274-284 | The client-side result has at most eight branches, five connections and four missing topics. |
| InsightAnalysis.GenerateInsightsClientSide | src/aiInsights.ts:274-284 | The methods together compute the client-side result. |
| InsightAnalysis.GenerateInsights | src/aiInsights.ts:202-214 | The result is the Chrome AI reply when there is one, and otherwise the client-side result. |
| InsightAnalysis.GenerateDataHash | src/aiInsights.ts:424-427 | The hash is taken over the pre-order texts. |
| InsightAnalysis.PerformSpec | src/aiInsights.ts:55-76 | When hashing throws: the fallback, with the cache untouched. When the hash matches a cached result: that result, with no regeneration. Otherwise: fresh insights, with both cache fields updated. |
| InsightAnalysis.PerformTwice | src/aiInsights.ts:60-63 | A second analysis with an unchanged hash returns the same insights, with the cache unchanged. |
| InsightAnalysis.Snapshot | src/aiInsights.ts:57-58 | The forest and its hash, computed first. |
| InsightAnalysis.AIInsightsAnalyzer.constructor | src/aiInsights.ts:28-34 | The analyser starts with no cached insights and an empty hash. |
| InsightAnalysis.AIInsightsAnalyzer.PerformAnalysis | src/aiInsights.ts:55-76 | The returned insights and the new cache fields are those that `Perform` gives from the old cache. |
| InsightAnalysis.AIInsightsAnalyzer.CachedOrGenerated | src/aiInsights.ts:61-71 | The cache check and update, once the forest and hash are known. |
| InsightAnalysis.AIInsightsAnalyzer.Store | src/aiInsights.ts:68-71 | Both cache fields are set, and the insights are returned. |

## Left out

**Timers, observers and async timing**
- `MutationObserver` setup and debounce timers are not modelled: `setupObserver`, `observeMindMap`, `analyzeWithDebounce` and `debounce`. They carry no logic beyond scheduling.
- Real time and async scheduling are not modelled. Deadline loops use an abstract clock whose readings grow by at least the polling interval.
- The `delay(50)` pause every fifth toggle in `toggleNodes` is a no-op here.
- `retry` returns the delay it would schedule. The re-run of `init` after it is not modelled.

**UI and chrome glue**
- Modal and toolbar HTML is not modelled: `showOutlineModal`, `showExportModal`, `exportMindMap`, the toolbar's element construction, `updateToggleIcon` and the theme class toggling. Only the toolbar's presence and the theme flag are kept.
- `setupMessageListener`, `init` and `waitForInterface` are chrome runtime and start-up glue, so they are not modelled.
- `hasDOM` and the chat and playback selector lists are not modelled. Nothing in the modelled core reads them.
- `EXPAND_BUTTON_SELECTORS` in `src/safeClicker.ts` is not modelled. The modelled core does not use it.

**Browser oracles**
- The Chrome AI call is a parameter `chromeReply`, the reply when one is available. That covers `isChromeAIAvailable`, `generateInsightsWithChromeAI` (its prompt and its JSON parsing with defaults), and its fall back to the client-side result.
- `btoa` is an abstract function `dataHash` over the pre-order texts, and `None` stands for the exception it throws. `JSON.stringify` is a parameter of the JSON exporter.
- `generateDataHash` keeps only the first 16 base64 characters of `btoa(texts.join('|'))`. This truncation is not modelled, because `dataHash` is an arbitrary function. So the model does not capture that two maps whose joined texts agree on their first 12 characters get the same hash, and that the analyser then returns the first map's cached insights for the second.
- Fuse ranking is an oracle `fuseSearch` over the indexed items.
- `generateNodeId` is an oracle. Each node element carries the id it would produce, because `getBoundingClientRect` coordinates are not modelled.
- `Date.now()` in `search` is a parameter `now`.

**Simplifications of the DOM and its data**
- The source's `number` fields `MindMapNode.depth` (src/exporting/exporters.ts:9), `SearchableItem.createdAt` and `AdvancedFilters.contentLength` (src/search.ts) are modelled as whole numbers: `depth` as `nat` in `Exporters.MindMapNode` and `Exporters.Row`, `createdAt` as `int`, `contentLength` as `Option<int>`. Fractional and negative values are not modelled. So the model does not capture that a negative depth makes `'  '.repeat(depth)` throw a `RangeError` in the Markdown export while the CSV prints it, that a depth of 1.5 indents once in Markdown but prints `1.5` in the CSV, or that a `contentLength` of 2.5 behaves like 3.
- `test/test.html`, the page the bundled script's tests load, is not part of this model. The fixture `DistExpander.Fixture` takes the test's labels and places Expand buttons on Root and Child 1: that placement is an assumption chosen to match the test's expected two clicks.
- The DOM is static during one outline, toggle or search pass. Which element ids are still attached to the document is a parameter `attached` of `injectControls` and `checkForMindMap`. Element identity is an `id` field, and for the bundled script an element's document position.
- A click is recorded in a log. Its effect on the tree is not modelled: the walk reads the tree as it was before any click, although `walkAndToggle` re-queries a node's children after clicking its button, so children that a click reveals are not walked.
- Array sorts are modelled by a stable sort on values. Both uses compare numbers, and JavaScript's `sort` is stable.
- `toLowerCase` is modelled on ASCII letters only.
- White space (`trim`, `\s`) is limited to the ASCII white space characters and U+00A0 and U+FEFF. Other Unicode space characters are not modelled.
- The `try`/`catch` of `extractMindMapStructure`, which returns `[]`, is not modelled, because nothing in the modelled extraction throws.
- The `nodeMap` of `buildHierarchy` is filled but never read, so it is not modelled.
- The forest of `buildHierarchy` is represented by node positions and per-node child lists, not by mutated `children` arrays.

**Deliberately weaker contracts and unused code paths**
- InsightAnalysis.AIInsightsAnalyzer.CachedOrGenerated: the contract fixes the returned insights and the new cache, but does not say that the insights are not generated on a cache hit. Generation has no other observable effect in the model.
- The `isDarkTheme` constructor parameter of the analyser is not modelled. It is only kept for theming.
- The fallback string `'Could not extract mind map structure'` of `extractMindMapText` is not modelled as a result. The header makes the outline non-empty, so the fallback is never returned.
- The context files `src/popup.ts`, `src/options.ts`, `src/background.ts`, `src/content.ts`, `src/exporter.ts`, `src/exporting/download.ts`, `src/citation.ts`, `src/sidepanel.ts` and `src/ui/floatingPanel.ts` are not part of this model.
