/**
 * The TypeScript content script `NotebookLMExpander`: it caches the
 * mind-map container, expands or collapses it through a toolbar button or
 * node by node, extracts a text outline, retries a failed start a bounded
 * number of times, reads the auto-expand setting and reacts to hotkeys.
 */
module Expander {
  import opened Wrappers
  import opened Text
  import opened Dom
  import opened SafeClicker
  import opened Seqs

  const RetryDelay: nat := 1000
  const MaxRetries: nat := 10

  /** The selectors that find the mind-map container, in priority order. */
  const MindMapSelectors: seq<string> := [
    "[data-testid=\"mind-map-container\"]",
    ".mind-map-container",
    ".mind-map-wrapper",
    "[class*=\"mind-map\"][role=\"application\"]",
    ".studio-panel [class*=\"mind-map\"]",
    "div[class*=\"MindMap\"]",
    ".notebook-mind-map",
    "[aria-label*=\"mind map\"]"
  ]

  /** The toolbar selectors tried for expanding, in priority order. */
  const ExpandToolbarSelectors: seq<string> := [
    "[aria-label=\"Expand all\"]",
    "[data-testid=\"expand-all-button\"]",
    "button[title*=\"Expand all\"]",
    ".mind-map-toolbar button:has(svg[class*=\"expand\"])",
    ".mind-map-container button[aria-label*=\"Expand all\"]",
    ".studio-panel button[aria-label*=\"Expand all\"]",
    "button[aria-label*=\"expand\"]"
  ]

  /** The toolbar selectors tried for collapsing, in priority order. */
  const CollapseToolbarSelectors: seq<string> := [
    "[aria-label=\"Collapse all\"]",
    "[data-testid=\"collapse-all-button\"]",
    "button[title*=\"Collapse all\"]",
    ".mind-map-toolbar button:has(svg[class*=\"collapse\"])",
    ".mind-map-container button[aria-label*=\"Collapse all\"]",
    ".studio-panel button[aria-label*=\"Collapse all\"]",
    "button[aria-label*=\"collapse\"]"
  ]

  // ------------------------------------------------------- button validity

  /** `.mind-map-container, .studio-panel, [data-testid="mind-map-container"]` on one element. */
  predicate InMindMapContext(e: Element) {
    HasClass(e.classes, "mind-map-container") || HasClass(e.classes, "studio-panel")
    || ("data-testid" in e.attributes && e.attributes["data-testid"] == "mind-map-container")
  }

  /** `.sidebar, [class*="sidebar"], nav` on one element. */
  predicate InSidebar(e: Element) {
    HasClass(e.classes, "sidebar") || ClassContains(e.classes, "sidebar") || Lower(e.tag) == "nav"
  }

  /** `[class*="chevron"], [class*="arrow"], .expand-icon` on one descendant. */
  predicate IsExpandIcon(d: Shape) {
    ClassContains(d.classes, "chevron") || ClassContains(d.classes, "arrow") || HasClass(d.classes, "expand-icon")
  }

  /** `closest('.mind-map-container, .studio-panel, [data-testid="mind-map-container"]')` is not null. */
  predicate ClosestInMindMap(e: Element)
    decreases e
  {
    InMindMapContext(e) || (e.parent.Some? && ClosestInMindMap(e.parent.value))
  }

  /** `closest('.sidebar, [class*="sidebar"], nav')` is not null. */
  predicate ClosestInSidebar(e: Element)
    decreases e
  {
    InSidebar(e) || (e.parent.Some? && ClosestInSidebar(e.parent.value))
  }

  /** `closest` finds a sidebar exactly when the element or one of its ancestors is one. */
  lemma {:induction false} ClosestInSidebarSpec(e: Element)
    ensures ClosestInSidebar(e) <==> exists a :: a in SelfAndAncestors(e) && InSidebar(a)
    decreases e
  {
    if e.parent.Some? {
      ClosestInSidebarSpec(e.parent.value);
    }
  }

  /** `isValidMindMapButton`: inside the mind-map context and not inside a sidebar or navigation. */
  predicate IsValidMindMapButton(button: Element) {
    ClosestInMindMap(button) && !ClosestInSidebar(button)
  }

  /**
   * `isValidNodeButton`: a `BUTTON` inside the mind-map context, outside
   * any sidebar or navigation, with `aria-expanded` or an expand icon below it.
   */
  predicate IsValidNodeButton(e: Element) {
    e.tag == "BUTTON"
    && ClosestInMindMap(e)
    && !ClosestInSidebar(e)
    && ("aria-expanded" in e.attributes || exists d :: d in e.descendants && IsExpandIcon(d))
  }

  /**
   * A valid node button is also a valid toolbar button, and neither check
   * accepts anything that is, or lies inside, a sidebar or navigation element.
   */
  lemma NodeButtonIsMindMapButton(e: Element)
    ensures IsValidNodeButton(e) ==> IsValidMindMapButton(e)
    ensures (exists a :: a in SelfAndAncestors(e) && InSidebar(a)) ==> !IsValidMindMapButton(e) && !IsValidNodeButton(e)
  {
    ClosestInSidebarSpec(e);
  }

  // ------------------------------------------------------ toolbar buttons

  /** How long `findToolbarButton` and `checkForMindMap` wait, in ms. */
  const ToolbarWait: int := 2000
  const MindMapWait: int := 1000

  /** Pass `k` of a whole-document wait starts before the deadline, finds something, and no earlier pass did. */
  ghost predicate FirstFind(doc: Doc, clock: Clock, selectors: seq<string>, timeout: int, k: nat) {
    Reading(clock, PollInterval, k) < clock.start + timeout
    && PassFinds(doc, WholeDocument, k, selectors).Some?
    && forall j :: 0 <= j < k ==> PassFinds(doc, WholeDocument, j, selectors).None?
  }

  /** No pass that starts before the deadline finds anything. */
  ghost predicate NothingFound(doc: Doc, clock: Clock, selectors: seq<string>, timeout: int) {
    forall k: nat :: Reading(clock, PollInterval, k) < clock.start + timeout ==> PassFinds(doc, WholeDocument, k, selectors).None?
  }

  /**
   * What `findToolbarButton` answers: the element of the first pass that
   * finds one within `ToolbarWait`, when it is a valid mind-map button;
   * `null` when that element is not valid or no pass finds anything.
   */
  ghost predicate ToolbarAnswer(doc: Doc, clock: Clock, selectors: seq<string>, button: Option<Element>) {
    (button.Some? ==> IsValidMindMapButton(button.value)
                      && exists k: nat :: FirstFind(doc, clock, selectors, ToolbarWait, k) && PassFinds(doc, WholeDocument, k, selectors) == button)
    && (button.None? ==> NothingFound(doc, clock, selectors, ToolbarWait)
                         || exists k: nat :: FirstFind(doc, clock, selectors, ToolbarWait, k)
                                           && !IsValidMindMapButton(PassFinds(doc, WholeDocument, k, selectors).value))
  }

  /**
   * The clicks of `expandAll` (`expand`) or `collapseAll` once the toolbar
   * answer is known: the toolbar button's activations when its safe click
   * succeeds, else the log of the per-node toggle for the opposite
   * `aria-expanded` state.
   */
  function AllClicks(toolbar: Option<Element>, q: NodeQuery, expand: bool): (r: seq<Activation>)
    ensures SafeClick(toolbar).success ==> |r| == 1 && r[0].id == toolbar.value.id
  {
    if SafeClick(toolbar).success then SafeClick(toolbar).activations
    else ToggleLists(NodeLists(q, TargetState(expand)), NodeSelectorCount).log
  }

  /** At most one pass is the first to find something. */
  lemma FirstFindUnique(doc: Doc, clock: Clock, selectors: seq<string>, timeout: int, k1: nat, k2: nat)
    requires FirstFind(doc, clock, selectors, timeout, k1) && FirstFind(doc, clock, selectors, timeout, k2)
    ensures k1 == k2
  {
  }

  /** The toolbar answer is determined by the page: no two answers differ, so `null` is not an answer when a valid button is found first. */
  lemma ToolbarAnswerUnique(doc: Doc, clock: Clock, selectors: seq<string>, b1: Option<Element>, b2: Option<Element>)
    requires ToolbarAnswer(doc, clock, selectors, b1) && ToolbarAnswer(doc, clock, selectors, b2)
    ensures b1 == b2
  {
    if b1.Some? && b2.Some? {
      var k1: nat :| FirstFind(doc, clock, selectors, ToolbarWait, k1) && PassFinds(doc, WholeDocument, k1, selectors) == b1;
      var k2: nat :| FirstFind(doc, clock, selectors, ToolbarWait, k2) && PassFinds(doc, WholeDocument, k2, selectors) == b2;
      FirstFindUnique(doc, clock, selectors, ToolbarWait, k1, k2);
    } else if b1.Some? || b2.Some? {
      var b := if b1.Some? then b1 else b2;
      assert ToolbarAnswer(doc, clock, selectors, b) && ToolbarAnswer(doc, clock, selectors, None);
      var k1: nat :| FirstFind(doc, clock, selectors, ToolbarWait, k1) && PassFinds(doc, WholeDocument, k1, selectors) == b;
      if !NothingFound(doc, clock, selectors, ToolbarWait) {
        var k2: nat :| FirstFind(doc, clock, selectors, ToolbarWait, k2)
                       && !IsValidMindMapButton(PassFinds(doc, WholeDocument, k2, selectors).value);
        FirstFindUnique(doc, clock, selectors, ToolbarWait, k1, k2);
      }
    }
  }

  /** A valid toolbar button present on the first pass is the answer: the toolbar is tried first. */
  lemma ToolbarOnFirstPass(doc: Doc, clock: Clock, selectors: seq<string>, b: Element, button: Option<Element>)
    requires PassFinds(doc, WholeDocument, 0, selectors) == Some(b) && IsValidMindMapButton(b)
    requires ToolbarAnswer(doc, clock, selectors, button)
    ensures button == Some(b)
  {
    assert FirstFind(doc, clock, selectors, ToolbarWait, 0);
    ToolbarAnswerUnique(doc, clock, selectors, button, Some(b));
  }

  // ----------------------------------------------------------- toggleNodes

  const NodeSelectorCount: nat := 4

  /** The node selectors for the `aria-expanded` state to look for. */
  function NodeSelectors(targetState: string): (r: seq<string>)
    ensures |r| == NodeSelectorCount
  {
    [".mind-map-container [aria-expanded=\"" + targetState + "\"]",
     ".studio-panel [aria-expanded=\"" + targetState + "\"]",
     "[data-testid=\"mind-map-container\"] [aria-expanded=\"" + targetState + "\"]",
     "[class*=\"mind-map\"] [aria-expanded=\"" + targetState + "\"]"]
  }

  /**
   * The page's answers to the node selectors: `all(targetState, i)` is what
   * `document.querySelectorAll(NodeSelectors(targetState)[i])` finds, in
   * document order.
   */
  datatype NodeQuery = NodeQuery(all: (string, nat) -> seq<Element>)

  /** The `aria-expanded` value of the nodes `toggleNodes(expand)` looks for. */
  function TargetState(expand: bool): string {
    if expand then "false" else "true"
  }

  /** The node lists of the four node selectors for `targetState`, in selector order. */
  function NodeLists(q: NodeQuery, targetState: string): (r: seq<seq<Element>>)
    ensures |r| == NodeSelectorCount
    ensures forall i :: 0 <= i < NodeSelectorCount ==> r[i] == q.all(targetState, i)
  {
    seq(NodeSelectorCount, i requires 0 <= i => q.all(targetState, i))
  }

  /**
   * The state of a `toggleNodes` run: the ids in `processedNodes`,
   * `toggledCount`, the nodes counted in order, and the activations caused.
   */
  datatype ToggleRun = ToggleRun(processed: set<nat>, count: nat, toggled: seq<Element>, log: seq<Activation>)

  /** One candidate node: skipped when already processed or invalid; counted when `safeClick` succeeds. */
  function ToggleStep(st: ToggleRun, node: Element): ToggleRun {
    if node.id !in st.processed && ClickedNode(node)
    then ToggleRun(st.processed + {node.id}, st.count + 1, st.toggled + [node], st.log + SafeClick(Some(node)).activations)
    else st
  }

  /** The run after the first `n` nodes of `nodes`, starting from `st`. */
  function ToggleList(st: ToggleRun, nodes: seq<Element>, n: nat): ToggleRun
    requires n <= |nodes|
  {
    if n == 0 then st else ToggleStep(ToggleList(st, nodes, n - 1), nodes[n - 1])
  }

  /** The run after the first `i` node lists, from an empty processed set. */
  function ToggleLists(lists: seq<seq<Element>>, i: nat): ToggleRun
    requires i <= |lists|
  {
    if i == 0 then ToggleRun({}, 0, [], []) else ToggleList(ToggleLists(lists, i - 1), lists[i - 1], |lists[i - 1]|)
  }

  /**
   * What `toggleNodes` promises of its count: it is the number of nodes
   * counted, each counted node was a valid node button whose click
   * succeeded, it is in the processed set, and no node is counted twice.
   */
  predicate CountedOnce(st: ToggleRun) {
    && st.count == |st.toggled|
    && AllProcessed(st.toggled, st.processed)
    && AllClicked(st.toggled)
    && DistinctIds(st.toggled)
  }

  /** Every node's id is in the processed set. */
  predicate AllProcessed(nodes: seq<Element>, processed: set<nat>) {
    forall i :: 0 <= i < |nodes| ==> nodes[i].id in processed
  }

  /** Every node was clicked successfully. */
  predicate AllClicked(nodes: seq<Element>) {
    forall i :: 0 <= i < |nodes| ==> ClickedNode(nodes[i])
  }

  /** A node `toggleNodes` counts: a valid node button whose safe click succeeded. */
  predicate ClickedNode(node: Element) {
    IsValidNodeButton(node) && SafeClick(Some(node)).success
  }

  /** No id occurs twice. */
  predicate DistinctIds(nodes: seq<Element>) {
    forall i, j :: 0 <= i < j < |nodes| ==> nodes[i].id != nodes[j].id
  }

  lemma ToggleStepCountsOnce(st: ToggleRun, node: Element)
    requires CountedOnce(st)
    ensures CountedOnce(ToggleStep(st, node))
    ensures |ToggleStep(st, node).toggled| <= |st.toggled| + 1
  {
  }

  lemma {:induction false} ToggleListCountsOnce(st: ToggleRun, nodes: seq<Element>, n: nat)
    requires n <= |nodes| && CountedOnce(st)
    ensures CountedOnce(ToggleList(st, nodes, n))
    ensures |ToggleList(st, nodes, n).toggled| <= |st.toggled| + n
  {
    if n > 0 {
      ToggleListCountsOnce(st, nodes, n - 1);
      ToggleStepCountsOnce(ToggleList(st, nodes, n - 1), nodes[n - 1]);
    }
  }

  /** The total number of candidates in the node lists. */
  function Candidates(lists: seq<seq<Element>>, i: nat): nat
    requires i <= |lists|
  {
    if i == 0 then 0 else Candidates(lists, i - 1) + |lists[i - 1]|
  }

  /**
   * Over any node lists, every node is counted at most once even when
   * several selectors find it, only valid nodes whose click succeeded are
   * counted, and the count never exceeds the number of candidates.
   */
  lemma {:induction false} ToggleNodesCountsOnce(lists: seq<seq<Element>>, i: nat)
    requires i <= |lists|
    ensures CountedOnce(ToggleLists(lists, i))
    ensures ToggleLists(lists, i).count <= Candidates(lists, i)
  {
    if i > 0 {
      ToggleNodesCountsOnce(lists, i - 1);
      ToggleListCountsOnce(ToggleLists(lists, i - 1), lists[i - 1], |lists[i - 1]|);
    }
  }

  /** A node found by two selectors is clicked once: the second sighting finds it processed. */
  lemma SecondSightingSkipped(st: ToggleRun, node: Element)
    requires IsValidNodeButton(node) && SafeClick(Some(node)).success && node.id !in st.processed
    ensures ToggleStep(ToggleStep(st, node), node) == ToggleStep(st, node)
    ensures ToggleStep(st, node).count == st.count + 1
  {
  }

  // -------------------------------------------------------- mindMapText

  /**
   * An element the outline walk visits. `texts[k]` is the text content of
   * what the `k`-th text selector finds below it (None when nothing);
   * `childGroups[k]` the elements the `k`-th child selector finds.
   */
  datatype OutlineNode = OutlineNode(texts: seq<Option<string>>, childGroups: seq<ChildGroup>)

  /** The elements one child selector finds below an element, in document order. */
  datatype ChildGroup = ChildGroup(children: seq<OutlineNode>)

  const Header: string := "NotebookLM Mind Map Export\n" + Repeat('=', 30) + "\n\n"
  const NoContainerText: string := "Mind map not found"
  const NoStructureText: string := "Could not extract mind map structure"

  /** The four root selectors, tried on the cached container in order. */
  const RootSelectors: seq<string> := [".mind-map-root", ".root-node", "[class*=\"root-node\"]", ".mind-map-container > .node"]

  /** A text selector's answer ends the search when it has non-empty text content. */
  predicate HasTextContent(t: Option<string>) {
    t.Some? && t.value != ""
  }

  /** The trimmed text of the first text selector (from `k` on) whose match has text content; "" if none. */
  function NodeText(texts: seq<Option<string>>, k: nat): string
    requires k <= |texts|
    decreases |texts| - k
  {
    if k == |texts| then ""
    else if HasTextContent(texts[k]) then Trim(texts[k].value)
    else NodeText(texts, k + 1)
  }

  /**
   * The first selector with text content decides the node text, even when
   * its text trims to nothing and a later selector has a proper label.
   */
  lemma {:induction false} NodeTextFirstWins(texts: seq<Option<string>>, k: nat)
    requires k < |texts| && HasTextContent(texts[k])
    requires forall m :: 0 <= m < k ==> !HasTextContent(texts[m])
    ensures NodeText(texts, 0) == Trim(texts[k].value)
  {
    NodeTextSkips(texts, 0, k);
  }

  lemma {:induction false} NodeTextSkips(texts: seq<Option<string>>, j: nat, k: nat)
    requires j <= k <= |texts|
    requires forall m :: j <= m < k ==> !HasTextContent(texts[m])
    ensures NodeText(texts, j) == NodeText(texts, k)
    decreases k - j
  {
    if j < k {
      NodeTextSkips(texts, j + 1, k);
    }
  }

  /** The line one visited element adds: nothing when its text is empty. */
  function TextLine(n: OutlineNode, depth: nat): string {
    var t := NodeText(n.texts, 0);
    if t == "" then "" else Indent(depth) + "- " + t + "\n"
  }

  /** What `walk(element, depth)` appends: its line, then every child group in order, one level deeper. */
  function WalkText(n: OutlineNode, depth: nat): string
    decreases n, 2
  {
    TextLine(n, depth) + GroupsText(n, 0, depth + 1)
  }

  /** What walking the child groups `g..` of `n` appends. */
  function GroupsText(n: OutlineNode, g: nat, depth: nat): string
    requires g <= |n.childGroups|
    decreases n, 1, |n.childGroups| - g
  {
    if g == |n.childGroups| then "" else GroupText(n, g, 0, depth) + GroupsText(n, g + 1, depth)
  }

  /** What walking the children `i..` of child group `g` of `n` appends. */
  function GroupText(n: OutlineNode, g: nat, i: nat, depth: nat): string
    requires g < |n.childGroups| && i <= |n.childGroups[g].children|
    decreases n, 0, |n.childGroups[g].children| - i
  {
    if i == |n.childGroups[g].children| then ""
    else
      WalkText(n.childGroups[g].children[i], depth) + GroupText(n, g, i + 1, depth)
  }

  /** What walking the roots `i..` at depth 0 appends. */
  function RootsText(roots: seq<OutlineNode>, i: nat): string
    requires i <= |roots|
    decreases |roots| - i
  {
    if i == |roots| then "" else WalkText(roots[i], 0) + RootsText(roots, i + 1)
  }

  /** The text of the first root group, from `s` on, that is non-empty; "" when all are empty. */
  function FirstRootsText(groups: seq<seq<OutlineNode>>, s: nat): string
    requires s <= |groups|
    decreases |groups| - s
  {
    if s == |groups| then "" else if groups[s] != [] then RootsText(groups[s], 0) else FirstRootsText(groups, s + 1)
  }

  /** Only the first root selector that finds any roots is used; later groups are ignored. */
  lemma {:induction false} OnlyFirstRootGroupUsed(groups: seq<seq<OutlineNode>>, k: nat)
    requires k < |groups| && groups[k] != []
    requires forall m :: 0 <= m < k ==> groups[m] == []
    ensures FirstRootsText(groups, 0) == RootsText(groups[k], 0)
  {
    FirstRootsSkips(groups, 0, k);
  }

  lemma {:induction false} FirstRootsSkips(groups: seq<seq<OutlineNode>>, j: nat, k: nat)
    requires j <= k <= |groups|
    requires forall m :: j <= m < k ==> groups[m] == []
    ensures FirstRootsText(groups, j) == FirstRootsText(groups, k)
    decreases k - j
  {
    if j < k {
      FirstRootsSkips(groups, j + 1, k);
    }
  }

  /**
   * A child that two child selectors both find is walked twice, so its
   * lines appear twice in the outline.
   */
  lemma ChildFoundTwiceIsWalkedTwice(c: OutlineNode, depth: nat)
    ensures WalkText(OutlineNode([], [ChildGroup([c]), ChildGroup([c]), ChildGroup([])]), depth) == WalkText(c, depth + 1) + WalkText(c, depth + 1)
  {
    var n := OutlineNode([], [ChildGroup([c]), ChildGroup([c]), ChildGroup([])]);
    var w := WalkText(c, depth + 1);
    assert GroupText(n, 0, 0, depth + 1) == w + "" == w;
    assert GroupText(n, 1, 0, depth + 1) == w + "" == w;
    assert GroupText(n, 2, 0, depth + 1) == "";
    assert GroupsText(n, 2, depth + 1) == "" + "";
    assert GroupsText(n, 1, depth + 1) == w + ("" + "");
    assert GroupsText(n, 0, depth + 1) == w + (w + ("" + ""));
    assert TextLine(n, depth) == "";
  }

  /** The header is the title line, a rule of 30 '=' and a blank line. */
  lemma HeaderShape()
    ensures |Header| == 59
    ensures Header[..27] == "NotebookLM Mind Map Export\n"
    ensures forall i :: 27 <= i < 57 ==> Header[i] == '='
    ensures Header[57..] == "\n\n"
  {
  }

  // --------------------------------------------------------- settings, keys

  /** A stored `autoExpand` value: a boolean, or any other JSON value. */
  datatype StoredValue = StoredBool(b: bool) | StoredOther

  /**
   * How reading `chrome.storage.sync` went: no storage API, the call threw,
   * it reported `runtime.lastError`, or it answered with the stored value
   * (None when nothing is stored).
   */
  datatype StorageOutcome = NoStorage | AccessThrew | LastError | Answered(autoExpand: Option<StoredValue>)

  /** `getSettings().autoExpand`: false only when the stored value is exactly `false`. */
  function AutoExpand(storage: StorageOutcome): (autoExpand: bool)
    ensures !autoExpand <==> storage == Answered(Some(StoredBool(false)))
  {
    match storage
    case Answered(v) => v != Some(StoredBool(false))
    case _ => true
  }

  /** A `keydown` event: the modifier flags and `e.key`. */
  datatype KeyEvent = KeyEvent(ctrlKey: bool, shiftKey: bool, key: string)

  /** What the hotkey listener does with an event. */
  datatype HotkeyAction = ExpandAllKey | CollapseAllKey | NoAction

  /** The hotkey dispatch of `registerHotkeys`. */
  function Hotkey(e: KeyEvent): (a: HotkeyAction)
    ensures a == ExpandAllKey <==> e.ctrlKey && e.shiftKey && (e.key == "E" || e.key == "e")
    ensures a == CollapseAllKey <==> e.ctrlKey && e.shiftKey && (e.key == "C" || e.key == "c")
    ensures !(e.ctrlKey && e.shiftKey) ==> a == NoAction
  {
    if !e.ctrlKey || !e.shiftKey then NoAction
    else if e.key == "E" || e.key == "e" then ExpandAllKey
    else if e.key == "C" || e.key == "c" then CollapseAllKey
    else NoAction
  }

  // ---------------------------------------------------------------- state

  /** The expander object: its cached container, retry counter and expansion flag. */
  class NotebookLMExpander {
    var container: Option<Element>
    var retryCount: nat
    var isExpanded: bool
    /** The container the `#nlm-expander-controls` element was last appended to, if any. */
    var controlsIn: Option<nat>
    /** Every activation caused by the expander's clicks, in order. */
    var clicks: seq<Activation>

    /** The retry counter stays within its bound. */
    predicate Valid()
      reads this
    {
      retryCount <= MaxRetries
    }

    constructor ()
      ensures Valid()
      ensures container.None? && retryCount == 0 && !isExpanded && controlsIn.None? && clicks == []
    {
      container := None;
      retryCount := 0;
      isExpanded := false;
      controlsIn := None;
      clicks := [];
    }

    /**
     * `retry`: below the bound the counter grows by one and the next start
     * is scheduled `RetryDelay * retryCount` ms later; at the bound nothing
     * happens. `delay` is the delay handed to `setTimeout`.
     */
    method Retry() returns (delay: Option<nat>)
      requires Valid()
      modifies this`retryCount
      ensures Valid()
      ensures old(retryCount) < MaxRetries ==> retryCount == old(retryCount) + 1 && delay == Some(RetryDelay * retryCount)
      ensures old(retryCount) >= MaxRetries ==> retryCount == old(retryCount) && delay.None?
    {
      delay := None;
      if retryCount < MaxRetries {
        retryCount := retryCount + 1;
        delay := Some(RetryDelay * retryCount);
      }
    }

    /**
     * `document.getElementById('nlm-expander-controls')` finds the controls:
     * they were appended to a container that is still in the document,
     * whose attached element ids are `attached`.
     */
    predicate ControlsPresent(attached: set<nat>)
      reads this
    {
      controlsIn.Some? && controlsIn.value in attached
    }

    /**
     * `injectControls`: with a cached container and no controls in the
     * document, appends the controls to the container; otherwise nothing.
     */
    method InjectControls(attached: set<nat>)
      modifies this`controlsIn
      ensures controlsIn == if container.Some? && !old(ControlsPresent(attached)) then Some(container.value.id) else old(controlsIn)
      ensures container.Some? && container.value.id in attached ==> ControlsPresent(attached)
    {
      if container.None? || ControlsPresent(attached) {
        return;
      }
      controlsIn := Some(container.value.id);
    }

    /**
     * The nodes one selector found, in order, inside `toggleNodes`; `run` is
     * the run so far and `base` the activations from before the run.
     */
    method ToggleNodeList(nodes: seq<Element>, processedNodes: set<nat>, toggled: nat,
                          ghost run: ToggleRun, ghost base: seq<Activation>)
      returns (processed: set<nat>, count: nat)
      requires processedNodes == run.processed && toggled == run.count && clicks == base + run.log
      modifies this`clicks
      ensures var next := ToggleList(run, nodes, |nodes|);
        processed == next.processed && count == next.count && clicks == base + next.log
    {
      processed, count := processedNodes, toggled;
      var i := 0;
      while i < |nodes|
        invariant 0 <= i <= |nodes|
        invariant processed == ToggleList(run, nodes, i).processed && count == ToggleList(run, nodes, i).count
        invariant clicks == base + ToggleList(run, nodes, i).log
      {
        processed, count := ToggleOne(nodes[i], processed, count, ToggleList(run, nodes, i), base);
        i := i + 1;
      }
      assert i == |nodes|;
    }

    /** One candidate of a node list inside `toggleNodes`, as `ToggleStep` describes it. */
    method ToggleOne(node: Element, processedNodes: set<nat>, toggled: nat, ghost run: ToggleRun, ghost base: seq<Activation>)
      returns (processed: set<nat>, count: nat)
      requires processedNodes == run.processed && toggled == run.count && clicks == base + run.log
      modifies this`clicks
      ensures var next := ToggleStep(run, node);
        processed == next.processed && count == next.count && clicks == base + next.log
    {
      processed, count := processedNodes, toggled;
      var counted := VisitCandidate(node, processed);
      if counted {
        Regroup(base, run.log, SafeClick(Some(node)).activations);
        processed := processed + {node.id};
        count := count + 1;
      } else {
        assert run.log + [] == run.log;
      }
    }

    /**
     * The handling of one candidate inside `toggleNodes`: a node whose id is
     * not yet processed and that is a valid node button is clicked safely;
     * `counted` says the click succeeded, and only then are its activations
     * recorded.
     */
    method VisitCandidate(node: Element, processedNodes: set<nat>) returns (counted: bool)
      modifies this`clicks
      ensures counted == (node.id !in processedNodes && ClickedNode(node))
      ensures clicks == old(clicks) + (if counted then SafeClick(Some(node)).activations else [])
    {
      counted := false;
      if node.id !in processedNodes && IsValidNodeButton(node) {
        var r := SafeClick(Some(node));
        if r.success {
          clicks := clicks + r.activations;
          counted := true;
        }
      }
    }

    /**
     * `toggleNodes(expand)`: walks the node lists of the four selectors in
     * order, clicking every valid node not yet processed; afterwards the
     * expansion flag is `expand` whatever was toggled. `toggled` is the
     * count it logs.
     */
    method ToggleNodes(q: NodeQuery, expand: bool) returns (toggled: nat)
      modifies this`clicks, this`isExpanded
      ensures var run := ToggleLists(NodeLists(q, TargetState(expand)), NodeSelectorCount);
        toggled == run.count && clicks == old(clicks) + run.log
      ensures isExpanded == expand
    {
      var targetState := TargetState(expand);
      ghost var lists := NodeLists(q, targetState);
      toggled := 0;
      var processedNodes: set<nat> := {};
      ghost var run := ToggleRun({}, 0, [], []);
      var s := 0;
      while s < NodeSelectorCount
        invariant 0 <= s <= NodeSelectorCount && run == ToggleLists(lists, s)
        invariant processedNodes == run.processed && toggled == run.count && clicks == old(clicks) + run.log
      {
        var nodes := q.all(targetState, s);
        processedNodes, toggled := ToggleNodeList(nodes, processedNodes, toggled, run, old(clicks));
        run := ToggleList(run, nodes, |nodes|);
        s := s + 1;
      }
      isExpanded := expand;
    }

    /**
     * `findToolbarButton`: the first toolbar selector match within 2000 ms,
     * kept only when it is a valid mind-map button.
     */
    static method FindToolbarButton(doc: Doc, clock: Clock, selectors: seq<string>) returns (button: Option<Element>)
      ensures ToolbarAnswer(doc, clock, selectors, button)
    {
      var found := WaitForElement(doc, clock, selectors, ToolbarWait);
      if found.Some? {
        ghost var k: nat :| Reading(clock, PollInterval, k) < clock.start + ToolbarWait
                            && PassFinds(doc, WholeDocument, k, selectors) == found
                            && forall j :: 0 <= j < k ==> PassFinds(doc, WholeDocument, j, selectors).None?;
        assert FirstFind(doc, clock, selectors, ToolbarWait, k);
        if IsValidMindMapButton(found.value) {
          return found;
        }
      }
      return None;
    }

    /**
     * `expandAll`: a toolbar button whose safe click succeeds ends it;
     * otherwise every node is toggled. Either way the map counts as
     * expanded afterwards. `toolbar` is the toolbar button found, if any.
     */
    method ExpandAll(doc: Doc, clock: Clock, q: NodeQuery) returns (toolbar: Option<Element>)
      modifies this`clicks, this`isExpanded
      ensures isExpanded
      ensures ToolbarAnswer(doc, clock, ExpandToolbarSelectors, toolbar)
      ensures toolbar.Some? && SafeClick(toolbar).success ==> clicks == old(clicks) + SafeClick(toolbar).activations
      ensures !(toolbar.Some? && SafeClick(toolbar).success) ==>
        clicks == old(clicks) + ToggleLists(NodeLists(q, "false"), NodeSelectorCount).log
      ensures clicks == old(clicks) + AllClicks(toolbar, q, true)
    {
      toolbar := FindToolbarButton(doc, clock, ExpandToolbarSelectors);
      if toolbar.Some? {
        var r := SafeClick(toolbar);
        if r.success {
          clicks := clicks + r.activations;
          isExpanded := true;
          return;
        }
      }
      var toggled := ToggleNodes(q, true);
    }

    /** `collapseAll`: the same fallback order; afterwards the map counts as collapsed. */
    method CollapseAll(doc: Doc, clock: Clock, q: NodeQuery) returns (toolbar: Option<Element>)
      modifies this`clicks, this`isExpanded
      ensures !isExpanded
      ensures ToolbarAnswer(doc, clock, CollapseToolbarSelectors, toolbar)
      ensures toolbar.Some? && SafeClick(toolbar).success ==> clicks == old(clicks) + SafeClick(toolbar).activations
      ensures !(toolbar.Some? && SafeClick(toolbar).success) ==>
        clicks == old(clicks) + ToggleLists(NodeLists(q, "true"), NodeSelectorCount).log
      ensures clicks == old(clicks) + AllClicks(toolbar, q, false)
    {
      toolbar := FindToolbarButton(doc, clock, CollapseToolbarSelectors);
      if toolbar.Some? {
        var r := SafeClick(toolbar);
        if r.success {
          clicks := clicks + r.activations;
          isExpanded := false;
          return;
        }
      }
      var toggled := ToggleNodes(q, false);
    }

    /** The controls' toggle button: collapses an expanded map and expands a collapsed one. */
    method PressToggleButton(doc: Doc, clock: Clock, q: NodeQuery)
      modifies this`clicks, this`isExpanded
      ensures isExpanded == !old(isExpanded)
      ensures old(isExpanded) ==> exists t :: ToolbarAnswer(doc, clock, CollapseToolbarSelectors, t) && clicks == old(clicks) + AllClicks(t, q, false)
      ensures !old(isExpanded) ==> exists t :: ToolbarAnswer(doc, clock, ExpandToolbarSelectors, t) && clicks == old(clicks) + AllClicks(t, q, true)
    {
      if isExpanded {
        var button := CollapseAll(doc, clock, q);
        assert ToolbarAnswer(doc, clock, CollapseToolbarSelectors, button);
      } else {
        var button := ExpandAll(doc, clock, q);
        assert ToolbarAnswer(doc, clock, ExpandToolbarSelectors, button);
      }
    }

    /** The hotkey listener: runs the action `Hotkey` picks. */
    method OnKeyDown(e: KeyEvent, doc: Doc, clock: Clock, q: NodeQuery)
      modifies this`clicks, this`isExpanded
      ensures Hotkey(e) == ExpandAllKey ==> isExpanded
      ensures Hotkey(e) == ExpandAllKey ==> exists t :: ToolbarAnswer(doc, clock, ExpandToolbarSelectors, t) && clicks == old(clicks) + AllClicks(t, q, true)
      ensures Hotkey(e) == CollapseAllKey ==> !isExpanded
      ensures Hotkey(e) == CollapseAllKey ==> exists t :: ToolbarAnswer(doc, clock, CollapseToolbarSelectors, t) && clicks == old(clicks) + AllClicks(t, q, false)
      ensures Hotkey(e) == NoAction ==> clicks == old(clicks) && isExpanded == old(isExpanded)
    {
      var action := Hotkey(e);
      if action == ExpandAllKey {
        var button := ExpandAll(doc, clock, q);
        assert ToolbarAnswer(doc, clock, ExpandToolbarSelectors, button);
      } else if action == CollapseAllKey {
        var button := CollapseAll(doc, clock, q);
        assert ToolbarAnswer(doc, clock, CollapseToolbarSelectors, button);
      }
    }

    /**
     * `checkForMindMap`: a container found within 1000 ms that differs from
     * the cached one is cached, the controls are injected and, when the
     * setting allows, the map is expanded; anything else changes nothing.
     * `found` is what the wait returned, `expandClock` the clock of the
     * toolbar wait inside `expandAll`.
     */
    method CheckForMindMap(doc: Doc, attached: set<nat>, clock: Clock, expandClock: Clock, q: NodeQuery, storage: StorageOutcome)
      returns (found: Option<Element>)
      modifies this`container, this`controlsIn, this`clicks, this`isExpanded
      ensures found.Some? ==> exists k: nat :: FirstFind(doc, clock, MindMapSelectors, MindMapWait, k)
                                            && PassFinds(doc, WholeDocument, k, MindMapSelectors) == found
      ensures found.None? ==> NothingFound(doc, clock, MindMapSelectors, MindMapWait)
      ensures var isNew := found.Some? && (old(container).None? || old(container).value.id != found.value.id);
        && (isNew ==> container == found
                      && controlsIn == (if old(ControlsPresent(attached)) then old(controlsIn) else Some(found.value.id)))
        && (isNew && AutoExpand(storage) ==> isExpanded
                                             && exists t :: ToolbarAnswer(doc, expandClock, ExpandToolbarSelectors, t)
                                                         && clicks == old(clicks) + AllClicks(t, q, true))
        && (!(isNew && AutoExpand(storage)) ==> clicks == old(clicks) && isExpanded == old(isExpanded))
        && (!isNew ==> container == old(container) && controlsIn == old(controlsIn))
    {
      found := WaitForElement(doc, clock, MindMapSelectors, MindMapWait);
      if found.Some? {
        ghost var k: nat :| Reading(clock, PollInterval, k) < clock.start + MindMapWait
                            && PassFinds(doc, WholeDocument, k, MindMapSelectors) == found
                            && forall j :: 0 <= j < k ==> PassFinds(doc, WholeDocument, j, MindMapSelectors).None?;
        assert FirstFind(doc, clock, MindMapSelectors, MindMapWait, k);
      }
      if found.Some? && (container.None? || container.value.id != found.value.id) {
        container := found;
        InjectControls(attached);
        var autoExpand := AutoExpand(storage);
        if autoExpand {
          var button := ExpandAll(doc, expandClock, q);
          assert ToolbarAnswer(doc, expandClock, ExpandToolbarSelectors, button);
        }
      }
    }

    /** The nested `walk(element, depth)` of `extractMindMapText`, appending to `outline`. */
    static method Walk(n: OutlineNode, depth: nat, outline: string) returns (out: string)
      ensures out == outline + WalkText(n, depth)
      decreases n, 2
    {
      var nodeText := FindNodeText(n.texts);
      out := outline;
      if nodeText != "" {
        out := out + (Indent(depth) + "- " + nodeText + "\n");
      }
      assert out == outline + TextLine(n, depth) by {
        assert outline + "" == outline;
      }
      assert out + GroupsText(n, 0, depth + 1) == outline + WalkText(n, depth) by {
        Regroup(outline, TextLine(n, depth), GroupsText(n, 0, depth + 1));
      }
      var g := 0;
      while g < |n.childGroups|
        invariant 0 <= g <= |n.childGroups|
        invariant out + GroupsText(n, g, depth + 1) == outline + WalkText(n, depth)
      {
        ghost var before := out;
        out := WalkGroup(n, g, depth + 1, out);
        assert out + GroupsText(n, g + 1, depth + 1) == before + GroupsText(n, g, depth + 1) by {
          Regroup(before, GroupText(n, g, 0, depth + 1), GroupsText(n, g + 1, depth + 1));
        }
        g := g + 1;
      }
      assert out + "" == out;
    }

    /** The first text selector whose element has non-empty text gives the node's text, trimmed. */
    static method FindNodeText(texts: seq<Option<string>>) returns (nodeText: string)
      ensures nodeText == NodeText(texts, 0)
    {
      nodeText := "";
      var k := 0;
      while k < |texts|
        invariant 0 <= k <= |texts|
        invariant nodeText == "" && NodeText(texts, 0) == NodeText(texts, k)
      {
        if HasTextContent(texts[k]) {
          nodeText := Trim(texts[k].value);
          return;
        }
        k := k + 1;
      }
    }

    /** The walk over the children child selector `g` finds below `n`, each one level deeper. */
    static method WalkGroup(n: OutlineNode, g: nat, depth: nat, outline: string) returns (out: string)
      requires g < |n.childGroups|
      ensures out == outline + GroupText(n, g, 0, depth)
      decreases n, 1
    {
      var children := n.childGroups[g].children;
      out := outline;
      var i := 0;
      while i < |children|
        invariant 0 <= i <= |children|
        invariant out + GroupText(n, g, i, depth) == outline + GroupText(n, g, 0, depth)
      {
        ghost var before := out;
        out := Walk(children[i], depth, out);
        assert out + GroupText(n, g, i + 1, depth) == before + GroupText(n, g, i, depth) by {
          Regroup(before, WalkText(children[i], depth), GroupText(n, g, i + 1, depth));
        }
        i := i + 1;
      }
      assert out + "" == out;
    }

    /** Every root of the group, walked at depth 0 in order. */
    static method WalkRoots(found: seq<OutlineNode>, outline: string) returns (out: string)
      ensures out == outline + RootsText(found, 0)
    {
      out := outline;
      var i := 0;
      while i < |found|
        invariant 0 <= i <= |found|
        invariant out + RootsText(found, i) == outline + RootsText(found, 0)
      {
        ghost var before := out;
        out := Walk(found[i], 0, out);
        assert out + RootsText(found, i + 1) == before + RootsText(found, i) by {
          Regroup(before, WalkText(found[i], 0), RootsText(found, i + 1));
        }
        i := i + 1;
      }
      assert out + "" == out;
    }

    /**
     * `extractMindMapText`, with `roots(container, selector)` the elements a
     * root selector finds in the container: without a container the
     * not-found text; otherwise the header followed by the outline of the
     * first root group that is not empty.
     */
    method ExtractMindMapText(roots: (Element, string) -> seq<OutlineNode>) returns (text: string)
      ensures container.None? ==> text == NoContainerText
      ensures container.Some? ==> text == Header + FirstRootsText(RootGroups(roots, container.value), 0)
    {
      if container.None? {
        return NoContainerText;
      }
      var c := container.value;
      ghost var groups := RootGroups(roots, c);
      var outline := Header;
      var s := 0;
      while s < |RootSelectors|
        invariant 0 <= s <= |RootSelectors|
        invariant outline == Header && FirstRootsText(groups, 0) == FirstRootsText(groups, s)
      {
        var found := roots(c, RootSelectors[s]);
        if |found| > 0 {
          outline := WalkRoots(found, outline);
          assert outline == Header + FirstRootsText(groups, 0);
          break;
        }
        s := s + 1;
      }
      assert Header != [];
      text := if outline == "" then NoStructureText else outline;
      if s == |RootSelectors| {
        assert outline == Header + FirstRootsText(groups, 0) by {
          assert Header + "" == Header;
        }
      }
    }
  }

  /** The answers of the four root selectors on the container. */
  function RootGroups(roots: (Element, string) -> seq<OutlineNode>, c: Element): (r: seq<seq<OutlineNode>>)
    ensures |r| == |RootSelectors|
    ensures forall i :: 0 <= i < |RootSelectors| ==> r[i] == roots(c, RootSelectors[i])
  {
    seq(|RootSelectors|, i requires 0 <= i < |RootSelectors| => roots(c, RootSelectors[i]))
  }
}
