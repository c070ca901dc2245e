/**
 * The structure the insights analyser reads from the rendered mind map:
 * one node per distinct node text, with a depth estimated from the SVG
 * nesting, arranged into a forest by depth.
 *
 * The node objects of the source are identified here by their position in
 * the depth-sorted list, and the `children` array of the node at position
 * `p` is `children[p]`, a list of positions.
 */
module InsightHierarchy {
  import opened Wrappers
  import opened Text
  import opened Seqs
  import opened Dom

  /**
   * A `g.node` element: `texts[k]` is the `textContent` of its `k`-th
   * `text` element (None when null), `element` the element itself and
   * `nodeId` what `generateNodeId` gives it.
   */
  datatype NodeElement = NodeElement(texts: seq<Option<string>>, element: Element, nodeId: string)

  /** A `MindMapNode` of the analyser, without its children (kept apart) and its element. */
  datatype InsightNode = InsightNode(id: string, text: string, depth: nat)

  // ---------------------------------------------------------- node text

  /** The expand and collapse symbols drawn inside a node. */
  predicate IsToggleGlyph(s: string) {
    s == ">" || s == "<" || s == "\U{2228}" || s == "\U{2227}"
  }

  /** A text element contributes its trimmed content when that is not empty and not a toggle glyph. */
  predicate Contributes(t: Option<string>) {
    t.Some? && Trim(t.value) != "" && !IsToggleGlyph(Trim(t.value))
  }

  /** A string that is not empty and starts and ends with a non-blank character. */
  predicate Solid(s: string) {
    s != [] && !IsWhitespace(s[0]) && !IsWhitespace(s[|s| - 1])
  }

  /** The trimmed contents the text elements contribute, in order. */
  function TextItems(texts: seq<Option<string>>): (r: seq<string>)
    ensures forall i :: 0 <= i < |r| ==> Solid(r[i]) && !IsToggleGlyph(r[i])
  {
    if texts == [] then []
    else TextItems(texts[..|texts| - 1]) + (if Contributes(texts[|texts| - 1]) then [Trim(texts[|texts| - 1].value)] else [])
  }

  /** The text of a node: its text items joined by single spaces. */
  function NodeText(texts: seq<Option<string>>): string {
    Join(TextItems(texts), " ")
  }

  /** Each item followed by one space, as the loop of `extractMindMapStructure` accumulates them. */
  function Spaced(items: seq<string>): string {
    if items == [] then "" else Spaced(items[..|items| - 1]) + items[|items| - 1] + " "
  }

  lemma {:induction false} JoinAppend(a: seq<string>, x: string, sep: string)
    requires a != []
    ensures Join(a + [x], sep) == Join(a, sep) + sep + x
  {
    if |a| == 1 {
      assert (a + [x])[1..] == [x];
    } else {
      assert (a + [x])[1..] == a[1..] + [x];
      JoinAppend(a[1..], x, sep);
      Regroup(a[0] + sep, Join(a[1..], sep), sep + x);
      Regroup(a[0] + sep + Join(a[1..], sep), sep, x);
      Regroup(a[0] + sep, Join(a[1..], sep) + sep, x);
      Regroup(a[0] + sep, Join(a[1..], sep), sep);
    }
  }

  /** With at least one item, the accumulated text is the joined text and one trailing space. */
  lemma {:induction false} SpacedJoin(items: seq<string>)
    requires items != []
    ensures Spaced(items) == Join(items, " ") + " "
  {
    var init := items[..|items| - 1];
    var last := items[|items| - 1];
    if init == [] {
      assert items == [last];
      assert Spaced(items) == "" + last + " ";
    } else {
      SpacedJoin(init);
      assert items == init + [last];
      JoinAppend(init, last, " ");
      Regroup(Join(init, " "), " ", last);
    }
  }

  /** Joining solid items with spaces gives a solid string. */
  lemma {:induction false} JoinSolid(items: seq<string>)
    requires items != [] && forall i :: 0 <= i < |items| ==> Solid(items[i])
    ensures Solid(Join(items, " "))
  {
    if |items| > 1 {
      JoinSolid(items[1..]);
      var rest := Join(items[1..], " ");
      assert Join(items, " ") == items[0] + " " + rest;
      assert (items[0] + " " + rest)[0] == items[0][0];
      assert (items[0] + " " + rest)[|items[0] + " " + rest| - 1] == rest[|rest| - 1];
    }
  }

  /**
   * The text loop of `extractMindMapStructure`: every contributing item is
   * appended with a space, and the result is trimmed.
   */
  method CollectNodeText(texts: seq<Option<string>>) returns (nodeText: string)
    ensures nodeText == NodeText(texts)
  {
    nodeText := "";
    for k := 0 to |texts|
      invariant nodeText == Spaced(TextItems(texts[..k]))
    {
      assert texts[..k + 1][..k] == texts[..k] && texts[..k + 1][k] == texts[k];
      ghost var items := TextItems(texts[..k]);
      if texts[k].Some? && Contributes(texts[k]) {
        var content := Trim(texts[k].value);
        assert TextItems(texts[..k + 1]) == items + [content];
        nodeText := nodeText + content + " ";
        assert (items + [content])[..|items|] == items;
      } else {
        assert TextItems(texts[..k + 1]) == items + [];
        assert items + [] == items;
      }
    }
    assert texts[..|texts|] == texts;
    var items := TextItems(texts);
    if items != [] {
      SpacedJoin(items);
      JoinSolid(items);
      TrimPadded("", Join(items, " "), " ");
      assert "" + Join(items, " ") + " " == Join(items, " ") + " ";
    }
    nodeText := Trim(nodeText);
  }

  // --------------------------------------------------------- node depth

  /** An SVG group: `tagName.toLowerCase() === 'g'`. */
  predicate IsGroup(e: Element) {
    Lower(e.tag) == "g"
  }

  /** The number of group elements on the chain of `cur` and its ancestors. */
  function GroupCount(cur: Option<Element>): nat
    decreases cur
  {
    if cur.None? then 0 else (if IsGroup(cur.value) then 1 else 0) + GroupCount(cur.value.parent)
  }

  function Min(a: int, b: int): int {
    if a <= b then a else b
  }

  /** `estimateNodeDepth`: the group ancestors, counted up to ten, less two, never below zero. */
  function EstimatedDepth(e: Element): (d: nat)
    ensures d <= 8
  {
    var counted := Min(10, GroupCount(e.parent));
    if counted >= 2 then counted - 2 else 0
  }

  /** `estimateNodeDepth(node)`: the counting loop over the parent chain, stopped at ten groups. */
  method EstimateNodeDepth(node: Element) returns (depth: nat)
    ensures depth == EstimatedDepth(node)
    ensures depth <= 8
  {
    var count := 0;
    var current := node.parent;
    while current.Some? && count < 10
      invariant count <= 10
      invariant Min(10, count + GroupCount(current)) == Min(10, GroupCount(node.parent))
      decreases current
    {
      if Lower(current.value.tag) == "g" {
        count := count + 1;
      }
      current := current.value.parent;
    }
    depth := if count >= 2 then count - 2 else 0;
  }

  // ---------------------------------------------------------- collection

  /** The node an element yields. */
  function NodeOf(e: NodeElement): InsightNode {
    InsightNode(e.nodeId, NodeText(e.texts), EstimatedDepth(e.element))
  }

  /** The texts of the nodes collected so far: `processedNodes`. */
  function TextsOf(nodes: seq<InsightNode>): set<string> {
    set i | 0 <= i < |nodes| :: nodes[i].text
  }

  /** The nodes collected from the elements in document order: a node is dropped when its text is empty or already seen. */
  function Collected(els: seq<NodeElement>): seq<InsightNode> {
    if els == [] then []
    else
      var prev := Collected(els[..|els| - 1]);
      var e := els[|els| - 1];
      if NodeText(e.texts) != "" && NodeText(e.texts) !in TextsOf(prev) then prev + [NodeOf(e)] else prev
  }

  /** `els[i]` is the first element with its text, and that text is not empty. */
  predicate IsFirst(els: seq<NodeElement>, i: int)
    requires 0 <= i < |els|
  {
    NodeText(els[i].texts) != "" && forall j :: 0 <= j < i ==> NodeText(els[j].texts) != NodeText(els[i].texts)
  }

  /** The collection loop of `extractMindMapStructure`, with `processedNodes` as a set of texts. */
  method CollectNodes(els: seq<NodeElement>) returns (nodes: seq<InsightNode>)
    ensures nodes == Collected(els)
  {
    nodes := [];
    var processedNodes: set<string> := {};
    for index := 0 to |els|
      invariant nodes == Collected(els[..index]) && processedNodes == TextsOf(nodes)
    {
      assert els[..index + 1][..index] == els[..index];
      var el := els[index];
      var nodeText := CollectNodeText(el.texts);
      if nodeText != "" && nodeText !in processedNodes {
        processedNodes := processedNodes + {nodeText};
        var depth := EstimateNodeDepth(el.element);
        TextsOfAppend(nodes, InsightNode(el.nodeId, nodeText, depth));
        nodes := nodes + [InsightNode(el.nodeId, nodeText, depth)];
      }
    }
    assert els[..|els|] == els;
  }

  lemma TextsOfAppend(nodes: seq<InsightNode>, node: InsightNode)
    ensures TextsOf(nodes + [node]) == TextsOf(nodes) + {node.text}
  {
    var grown := nodes + [node];
    assert forall i :: 0 <= i < |nodes| ==> grown[i] == nodes[i];
    assert grown[|nodes|] == node;
  }

  /** The seen texts are exactly the non-empty texts of the elements. */
  lemma {:induction false} CollectedTexts(els: seq<NodeElement>, t: string)
    ensures t in TextsOf(Collected(els)) <==> t != "" && exists i :: 0 <= i < |els| && NodeText(els[i].texts) == t
  {
    if els != [] {
      var init := els[..|els| - 1];
      var prev := Collected(init);
      CollectedTexts(init, t);
      assert forall i :: 0 <= i < |init| ==> init[i] == els[i];
      if NodeText(els[|els| - 1].texts) != "" && NodeText(els[|els| - 1].texts) !in TextsOf(prev) {
        TextsOfAppend(prev, NodeOf(els[|els| - 1]));
      }
      if t != "" && exists i :: 0 <= i < |els| && NodeText(els[i].texts) == t {
        var i :| 0 <= i < |els| && NodeText(els[i].texts) == t;
        if i < |init| {
          assert NodeText(init[i].texts) == t;
        }
      }
    }
  }

  /**
   * A node is collected exactly when it is what the first element with a
   * given non-empty text yields: empty texts and repeated texts are
   * dropped, the first occurrence is kept.
   */
  lemma {:induction false} CollectedSpec(els: seq<NodeElement>, n: InsightNode)
    ensures n in Collected(els) <==> exists i :: 0 <= i < |els| && IsFirst(els, i) && n == NodeOf(els[i])
  {
    if els != [] {
      var k := |els| - 1;
      var init := els[..k];
      var prev := Collected(init);
      CollectedSpec(init, n);
      assert forall i :: 0 <= i < k ==> init[i] == els[i];
      assert forall i :: 0 <= i < k ==> (IsFirst(init, i) <==> IsFirst(els, i));
      var t := NodeText(els[k].texts);
      CollectedTexts(init, t);
      assert IsFirst(els, k) <==> t != "" && t !in TextsOf(prev);
      if n in Collected(els) && n !in prev {
        assert n == NodeOf(els[k]);
      }
      if exists i :: 0 <= i < |els| && IsFirst(els, i) && n == NodeOf(els[i]) {
        var i :| 0 <= i < |els| && IsFirst(els, i) && n == NodeOf(els[i]);
        if i < k {
          assert IsFirst(init, i) && n == NodeOf(init[i]);
        }
      }
    }
  }

  /** The collected texts are non-empty and pairwise different. */
  lemma {:induction false} CollectedDistinct(els: seq<NodeElement>)
    ensures forall i :: 0 <= i < |Collected(els)| ==> Collected(els)[i].text != ""
    ensures forall i, j :: 0 <= i < j < |Collected(els)| ==> Collected(els)[i].text != Collected(els)[j].text
  {
    if els != [] {
      var init := els[..|els| - 1];
      CollectedDistinct(init);
      var prev := Collected(init);
      assert forall i :: 0 <= i < |prev| ==> prev[i].text in TextsOf(prev);
    }
  }

  // ------------------------------------------------------------ parents

  /** The parent test of `findParentNode`: a lower depth, at least one less. */
  predicate IsParentCandidate(candidate: InsightNode, node: InsightNode) {
    candidate.depth < node.depth && candidate.depth >= node.depth - 1
  }

  /** The last position below `n` holding a parent candidate for `node`. */
  function LastCandidate(all: seq<InsightNode>, node: InsightNode, n: nat): (r: Option<nat>)
    requires n <= |all|
    ensures r.Some? ==> r.value < n
  {
    if n == 0 then None
    else if IsParentCandidate(all[n - 1], node) then Some(n - 1)
    else LastCandidate(all, node, n - 1)
  }

  /** For whole-number depths the candidate is exactly one level up. */
  lemma CandidateOneUp(candidate: InsightNode, node: InsightNode)
    ensures IsParentCandidate(candidate, node) <==> node.depth >= 1 && candidate.depth == node.depth - 1
  {
  }

  /** The search answers the last candidate, or None when there is none. */
  lemma {:induction false} LastCandidateSpec(all: seq<InsightNode>, node: InsightNode, n: nat)
    requires n <= |all|
    ensures LastCandidate(all, node, n).Some? ==>
      var p := LastCandidate(all, node, n).value;
      p < n && all[p].depth + 1 == node.depth && forall j :: p < j < n ==> all[j].depth + 1 != node.depth
    ensures LastCandidate(all, node, n).None? ==> forall j :: 0 <= j < n ==> all[j].depth + 1 != node.depth
  {
    if n > 0 {
      LastCandidateSpec(all, node, n - 1);
    }
  }

  /** `findParentNode(node, allNodes)`: scans from the end and answers the first candidate met. */
  method FindParentNode(node: InsightNode, allNodes: seq<InsightNode>) returns (parent: Option<nat>)
    ensures parent == LastCandidate(allNodes, node, |allNodes|)
  {
    var i := |allNodes|;
    while i > 0
      invariant 0 <= i <= |allNodes|
      invariant LastCandidate(allNodes, node, |allNodes|) == LastCandidate(allNodes, node, i)
    {
      var candidate := allNodes[i - 1];
      if candidate.depth < node.depth && candidate.depth >= node.depth - 1 {
        return Some(i - 1);
      }
      i := i - 1;
    }
    return None;
  }

  // ---------------------------------------------------------- hierarchy

  /** `(a, b) => a.depth - b.depth` as a sort key. */
  function Depth(n: InsightNode): int {
    n.depth
  }

  /** Where node `i` of the sorted list is attached: None makes it a root. */
  function ParentOf(sorted: seq<InsightNode>, i: nat): Option<nat>
    requires i < |sorted|
  {
    if sorted[i].depth == 0 then None else LastCandidate(sorted, sorted[i], |sorted|)
  }

  /** In a list sorted by depth, a node's parent comes before it, one level up. */
  lemma ParentBefore(sorted: seq<InsightNode>, i: nat)
    requires i < |sorted| && SortedBy(sorted, Depth)
    ensures ParentOf(sorted, i).Some? ==>
      var p := ParentOf(sorted, i).value;
      p < i && sorted[p].depth + 1 == sorted[i].depth
  {
    if sorted[i].depth != 0 {
      LastCandidateSpec(sorted, sorted[i], |sorted|);
      if ParentOf(sorted, i).Some? {
        var p := ParentOf(sorted, i).value;
      }
    }
  }

  /** The roots among the first `k` sorted nodes, in order. */
  function RootsUpTo(sorted: seq<InsightNode>, k: nat): seq<nat>
    requires k <= |sorted|
  {
    if k == 0 then [] else RootsUpTo(sorted, k - 1) + (if ParentOf(sorted, k - 1).None? then [k - 1] else [])
  }

  /** The children of `p` among the first `k` sorted nodes, in order. */
  function ChildrenUpTo(sorted: seq<InsightNode>, p: nat, k: nat): seq<nat>
    requires k <= |sorted|
  {
    if k == 0 then [] else ChildrenUpTo(sorted, p, k - 1) + (if ParentOf(sorted, k - 1) == Some(p) then [k - 1] else [])
  }

  /** The roots are the nodes of depth 0 and the nodes without a parent candidate. */
  lemma {:induction false} RootsUpToSpec(sorted: seq<InsightNode>, k: nat, i: nat)
    requires k <= |sorted|
    ensures i in RootsUpTo(sorted, k) <==> i < k && ParentOf(sorted, i).None?
  {
    if k > 0 {
      RootsUpToSpec(sorted, k - 1, i);
    }
  }

  /** The children of `p` are the nodes whose parent is `p`. */
  lemma {:induction false} ChildrenUpToSpec(sorted: seq<InsightNode>, p: nat, k: nat, i: nat)
    requires k <= |sorted|
    ensures i in ChildrenUpTo(sorted, p, k) <==> i < k && ParentOf(sorted, i) == Some(p)
  {
    if k > 0 {
      ChildrenUpToSpec(sorted, p, k - 1, i);
    }
  }

  /** Every child position lies after its parent's and inside the list. */
  predicate Ordered(children: seq<seq<nat>>, n: nat) {
    |children| == n && forall p, j :: 0 <= p < n && 0 <= j < |children[p]| ==> p < children[p][j] < n
  }

  /** The positions of the subtree of `x` in pre-order: `x`, then each child's subtree in order. */
  function Pre(children: seq<seq<nat>>, n: nat, x: nat): (r: seq<nat>)
    requires Ordered(children, n) && x < n
    ensures r != [] && r[0] == x
    ensures forall j :: 0 <= j < |r| ==> x <= r[j] < n
    decreases n - x, 1
  {
    [x] + PreList(children, n, children[x], x)
  }

  /** The pre-order positions of the subtrees of `list`, whose positions all lie above `lo`. */
  function PreList(children: seq<seq<nat>>, n: nat, list: seq<nat>, lo: int): (r: seq<nat>)
    requires Ordered(children, n) && forall j :: 0 <= j < |list| ==> lo < list[j] < n
    ensures forall j :: 0 <= j < |r| ==> lo < r[j] < n
    decreases n - lo, 0, |list|
  {
    if list == [] then [] else Pre(children, n, list[0]) + PreList(children, n, list[1..], lo)
  }

  lemma {:induction false} PreListAppend(children: seq<seq<nat>>, n: nat, a: seq<nat>, b: seq<nat>, lo: int)
    requires Ordered(children, n)
    requires forall j :: 0 <= j < |a| ==> lo < a[j] < n
    requires forall j :: 0 <= j < |b| ==> lo < b[j] < n
    ensures PreList(children, n, a + b, lo) == PreList(children, n, a, lo) + PreList(children, n, b, lo)
  {
    if a == [] {
      assert a + b == b;
    } else {
      assert (a + b)[0] == a[0];
      assert (a + b)[1..] == a[1..] + b;
      PreListAppend(children, n, a[1..], b, lo);
      Regroup(Pre(children, n, a[0]), PreList(children, n, a[1..], lo), PreList(children, n, b, lo));
    }
  }

  /** `parent.children.push(node)` on the positions. */
  function AddChild(children: seq<seq<nat>>, p: nat, k: nat): seq<seq<nat>>
    requires p < |children|
  {
    children[p := children[p] + [k]]
  }

  /** Nothing at or below `lo` occurs in a list whose elements all lie above `lo`. */
  lemma {:induction false} OccurrencesAbove(s: seq<nat>, lo: int, y: nat)
    requires forall j :: 0 <= j < |s| ==> lo < s[j]
    requires y <= lo
    ensures Occurrences(s, y) == 0
  {
    if s != [] {
      OccurrencesAbove(s[1..], lo, y);
    }
  }

  lemma AddChildOrdered(children: seq<seq<nat>>, n: nat, p: nat, k: nat)
    requires Ordered(children, n) && p < k < n
    ensures Ordered(AddChild(children, p, k), n)
  {
    var grown := AddChild(children, p, k);
    forall q, j | 0 <= q < n && 0 <= j < |grown[q]| ensures q < grown[q][j] < n {
      if q == p && j == |children[p]| {
        assert grown[q][j] == k;
      } else {
        assert grown[q][j] == children[q][j];
      }
    }
  }

  /**
   * Pushing a new leaf `k` below `p` adds `k` to a subtree once for every
   * time `p` occurs in it, and changes no other count.
   */
  lemma {:induction false} AddChildPre(children: seq<seq<nat>>, n: nat, p: nat, k: nat, x: nat, y: nat)
    requires Ordered(children, n) && p < k < n && children[k] == []
    requires Ordered(AddChild(children, p, k), n) && x < n
    ensures |Pre(AddChild(children, p, k), n, x)| == |Pre(children, n, x)| + Occurrences(Pre(children, n, x), p)
    ensures Occurrences(Pre(AddChild(children, p, k), n, x), y)
         == Occurrences(Pre(children, n, x), y) + (if y == k then Occurrences(Pre(children, n, x), p) else 0)
    decreases n - x, 1
  {
    var grown := AddChild(children, p, k);
    var below: seq<nat> := PreList(children, n, children[x], x);
    var grownBelow: seq<nat> := PreList(grown, n, children[x], x);
    AddChildPreList(children, n, p, k, children[x], x, y);
    assert Pre(children, n, x) == [x] + below;
    OccurrencesAppend([x], below, y);
    OccurrencesAppend([x], below, p);
    if x == p {
      assert grown[x] == children[x] + [k];
      PreListAppend(grown, n, children[x], [k], x);
      assert PreList(grown, n, [k], x) == [k] by {
        assert grown[k] == [];
        assert [k][1..] == [];
        assert Pre(grown, n, k) == [k];
      }
      assert Pre(grown, n, x) == [x] + (grownBelow + [k]);
      OccurrencesAbove(below, x, p);
      OccurrencesAppend([x], grownBelow + [k], y);
      OccurrencesAppend(grownBelow, [k], y);
    } else {
      assert grown[x] == children[x];
      assert Pre(grown, n, x) == [x] + grownBelow;
      OccurrencesAppend([x], grownBelow, y);
    }
  }

  lemma {:induction false} AddChildPreList(children: seq<seq<nat>>, n: nat, p: nat, k: nat, list: seq<nat>, lo: int, y: nat)
    requires Ordered(children, n) && p < k < n && children[k] == []
    requires Ordered(AddChild(children, p, k), n)
    requires forall j :: 0 <= j < |list| ==> lo < list[j] < n
    ensures |PreList(AddChild(children, p, k), n, list, lo)| == |PreList(children, n, list, lo)| + Occurrences(PreList(children, n, list, lo), p)
    ensures Occurrences(PreList(AddChild(children, p, k), n, list, lo), y)
         == Occurrences(PreList(children, n, list, lo), y) + (if y == k then Occurrences(PreList(children, n, list, lo), p) else 0)
    decreases n - lo, 0, |list|
  {
    if list != [] {
      var grown := AddChild(children, p, k);
      var first: seq<nat> := Pre(children, n, list[0]);
      var rest: seq<nat> := PreList(children, n, list[1..], lo);
      AddChildPre(children, n, p, k, list[0], y);
      AddChildPreList(children, n, p, k, list[1..], lo, y);
      assert PreList(children, n, list, lo) == first + rest;
      assert PreList(grown, n, list, lo) == Pre(grown, n, list[0]) + PreList(grown, n, list[1..], lo);
      OccurrencesAppend(first, rest, y);
      OccurrencesAppend(first, rest, p);
      OccurrencesAppend(Pre(grown, n, list[0]), PreList(grown, n, list[1..], lo), y);
    }
  }

  /** The first `k` positions are placed in the forest, each exactly once. */
  ghost predicate Placed(roots: seq<nat>, children: seq<seq<nat>>, n: nat, k: nat)
    requires Ordered(children, n) && forall i :: 0 <= i < |roots| ==> roots[i] < n
  {
    |PreList(children, n, roots, -1)| == k
    && forall y: nat :: Occurrences(PreList(children, n, roots, -1), y) == (if y < k then 1 else 0)
  }

  /** Each of `children[p]` lists the children of `p` among the first `k` sorted nodes. */
  ghost predicate ChildrenAre(sorted: seq<InsightNode>, children: seq<seq<nat>>, k: nat)
    requires k <= |sorted|
  {
    |children| == |sorted| && forall p :: 0 <= p < |sorted| ==> children[p] == ChildrenUpTo(sorted, p, k)
  }

  /** The state of `buildHierarchy` once the first `k` sorted nodes are attached. */
  ghost predicate Built(sorted: seq<InsightNode>, roots: seq<nat>, children: seq<seq<nat>>, k: nat) {
    k <= |sorted|
    && roots == RootsUpTo(sorted, k) && (forall i :: 0 <= i < |roots| ==> roots[i] < k)
    && ChildrenAre(sorted, children, k)
    && Ordered(children, |sorted|) && (forall j :: k <= j < |sorted| ==> children[j] == [])
    && Placed(roots, children, |sorted|, k)
  }

  /** A leaf's subtree is itself. */
  lemma LeafPre(children: seq<seq<nat>>, n: nat, k: nat)
    requires Ordered(children, n) && k < n && children[k] == []
    ensures Pre(children, n, k) == [k]
  {
  }

  /** Making the leaf `k` a root places it. */
  lemma PlaceRoot(roots: seq<nat>, children: seq<seq<nat>>, n: nat, k: nat)
    requires Ordered(children, n) && k < n && children[k] == []
    requires forall i :: 0 <= i < |roots| ==> roots[i] < k
    requires Placed(roots, children, n, k)
    ensures Placed(roots + [k], children, n, k + 1)
  {
    PreListAppend(children, n, roots, [k], -1);
    assert [k][1..] == [];
    LeafPre(children, n, k);
    assert PreList(children, n, [k], -1) == [k];
    forall y: nat ensures Occurrences(PreList(children, n, roots + [k], -1), y) == (if y < k + 1 then 1 else 0) {
      OccurrencesAppend(PreList(children, n, roots, -1), [k], y);
    }
  }

  /** Pushing the leaf `k` below an already placed `p` places it. */
  lemma PlaceChild(roots: seq<nat>, children: seq<seq<nat>>, n: nat, p: nat, k: nat)
    requires Ordered(children, n) && p < k < n && children[k] == []
    requires forall i :: 0 <= i < |roots| ==> roots[i] < k
    requires Placed(roots, children, n, k)
    ensures Ordered(AddChild(children, p, k), n)
    ensures Placed(roots, AddChild(children, p, k), n, k + 1)
  {
    AddChildOrdered(children, n, p, k);
    AddChildPreList(children, n, p, k, roots, -1, p);
    forall y: nat ensures Occurrences(PreList(AddChild(children, p, k), n, roots, -1), y) == (if y < k + 1 then 1 else 0) {
      AddChildPreList(children, n, p, k, roots, -1, y);
    }
  }

  /** The children lists once the first `k` sorted nodes are attached. */
  function ChildrenAt(sorted: seq<InsightNode>, k: nat): (r: seq<seq<nat>>)
    requires k <= |sorted|
    ensures |r| == |sorted| && forall p :: 0 <= p < |sorted| ==> r[p] == ChildrenUpTo(sorted, p, k)
  {
    seq(|sorted|, p requires 0 <= p < |sorted| => ChildrenUpTo(sorted, p, k))
  }

  /** Attaching node `k`: a root leaves the children lists alone, a child is pushed onto its parent's list. */
  lemma ChildrenAtStep(sorted: seq<InsightNode>, k: nat)
    requires k < |sorted|
    ensures ParentOf(sorted, k).None? ==> ChildrenAt(sorted, k + 1) == ChildrenAt(sorted, k)
    ensures ParentOf(sorted, k).Some? ==> ChildrenAt(sorted, k + 1) == AddChild(ChildrenAt(sorted, k), ParentOf(sorted, k).value, k)
  {
    var before := ChildrenAt(sorted, k);
    var after := ChildrenAt(sorted, k + 1);
    if ParentOf(sorted, k).None? {
      forall q | 0 <= q < |sorted| ensures after[q] == before[q] {
        assert ChildrenUpTo(sorted, q, k + 1) == ChildrenUpTo(sorted, q, k) + [];
      }
    } else {
      var p := ParentOf(sorted, k).value;
      var grown := AddChild(before, p, k);
      forall q | 0 <= q < |sorted| ensures after[q] == grown[q] {
        if q == p {
          assert ChildrenUpTo(sorted, q, k + 1) == ChildrenUpTo(sorted, q, k) + [k];
        } else {
          assert ChildrenUpTo(sorted, q, k + 1) == ChildrenUpTo(sorted, q, k) + [];
        }
      }
    }
  }

  /** The forest `buildHierarchy` returns: the depth-sorted nodes, the root positions and every node's children. */
  datatype Forest = Forest(nodes: seq<InsightNode>, roots: seq<nat>, children: seq<seq<nat>>)

  /** The forest the attachment rule builds over a sorted list. */
  function Arrange(sorted: seq<InsightNode>): Forest {
    Forest(sorted, RootsUpTo(sorted, |sorted|), ChildrenAt(sorted, |sorted|))
  }

  /** Every root and every child is a position of the list, and children lie after their parent. */
  predicate WellFormed(f: Forest) {
    Ordered(f.children, |f.nodes|) && forall i :: 0 <= i < |f.roots| ==> f.roots[i] < |f.nodes|
  }

  /** The positions of the whole forest in pre-order: each root's subtree in turn. */
  function PreOrder(f: Forest): seq<nat>
    requires WellFormed(f)
  {
    PreList(f.children, |f.nodes|, f.roots, -1)
  }

  /**
   * `buildHierarchy(nodes)`: the nodes are sorted by depth; each is then,
   * in order, made a root (depth 0, or no parent found) or pushed onto the
   * children of the parent `findParentNode` answers.
   */
  method BuildHierarchy(nodes: seq<InsightNode>) returns (forest: Forest)
    ensures forest == Arrange(SortBy(nodes, Depth))
  {
    var sorted := SortBy(nodes, Depth);
    var n := |sorted|;
    var rootNodes: seq<nat> := [];
    var children: seq<seq<nat>> := seq(n, _ => []);
    assert children == ChildrenAt(sorted, 0);
    for k := 0 to n
      invariant rootNodes == RootsUpTo(sorted, k) && children == ChildrenAt(sorted, k)
    {
      var node := sorted[k];
      var parent: Option<nat> := None;
      if node.depth != 0 {
        parent := FindParentNode(node, sorted);
      }
      assert parent == ParentOf(sorted, k);
      ChildrenAtStep(sorted, k);
      if parent.None? {
        rootNodes := rootNodes + [k];
      } else {
        children := children[parent.value := children[parent.value] + [k]];
      }
    }
    forest := Forest(sorted, rootNodes, children);
  }

  /** The attachment rule keeps the state of `buildHierarchy` after every node. */
  lemma {:induction false} ArrangeBuilt(sorted: seq<InsightNode>, k: nat)
    requires SortedBy(sorted, Depth) && k <= |sorted|
    ensures Built(sorted, RootsUpTo(sorted, k), ChildrenAt(sorted, k), k)
  {
    if k == 0 {
      assert PreList(ChildrenAt(sorted, 0), |sorted|, [], -1) == [];
    } else {
      ArrangeBuilt(sorted, k - 1);
      ChildrenAtStep(sorted, k - 1);
      if ParentOf(sorted, k - 1).None? {
        BuiltRoot(sorted, RootsUpTo(sorted, k - 1), ChildrenAt(sorted, k - 1), k - 1);
      } else {
        BuiltChild(sorted, RootsUpTo(sorted, k - 1), ChildrenAt(sorted, k - 1), k - 1, ParentOf(sorted, k - 1).value);
      }
    }
  }

  /** Attaching node `k` as a root. */
  lemma BuiltRoot(sorted: seq<InsightNode>, roots: seq<nat>, children: seq<seq<nat>>, k: nat)
    requires Built(sorted, roots, children, k) && k < |sorted| && ParentOf(sorted, k).None?
    ensures Built(sorted, roots + [k], children, k + 1)
  {
    PlaceRoot(roots, children, |sorted|, k);
    assert ChildrenAre(sorted, children, k + 1) by {
      forall q | 0 <= q < |sorted| ensures children[q] == ChildrenUpTo(sorted, q, k + 1) {
        assert ChildrenUpTo(sorted, q, k + 1) == ChildrenUpTo(sorted, q, k) + [];
      }
    }
  }

  /** Attaching node `k` below its parent `p`, which the depth order puts before it. */
  lemma BuiltChild(sorted: seq<InsightNode>, roots: seq<nat>, children: seq<seq<nat>>, k: nat, p: nat)
    requires SortedBy(sorted, Depth)
    requires Built(sorted, roots, children, k) && k < |sorted| && ParentOf(sorted, k) == Some(p)
    ensures p < k && Built(sorted, roots, AddChild(children, p, k), k + 1)
  {
    ParentBefore(sorted, k);
    PlaceChild(roots, children, |sorted|, p, k);
    var grown := AddChild(children, p, k);
    assert ChildrenAre(sorted, grown, k + 1) by {
      forall q | 0 <= q < |sorted| ensures grown[q] == ChildrenUpTo(sorted, q, k + 1) {
        if q == p {
          assert ChildrenUpTo(sorted, q, k + 1) == ChildrenUpTo(sorted, q, k) + [k];
        } else {
          assert ChildrenUpTo(sorted, q, k + 1) == ChildrenUpTo(sorted, q, k) + [];
        }
      }
    }
    assert forall j :: k + 1 <= j < |sorted| ==> grown[j] == [];
    assert RootsUpTo(sorted, k + 1) == roots + [];
  }

  /**
   * Every input node ends up exactly once in the forest: the pre-order
   * visits every position of the sorted list once, so it is as long as the
   * input, and the sorted list holds the input nodes.
   */
  lemma ForestHoldsEveryNode(nodes: seq<InsightNode>)
    ensures WellFormed(Arrange(SortBy(nodes, Depth)))
    ensures |PreOrder(Arrange(SortBy(nodes, Depth)))| == |nodes|
    ensures forall i: nat :: i < |nodes| ==> Occurrences(PreOrder(Arrange(SortBy(nodes, Depth))), i) == 1
    ensures multiset(Arrange(SortBy(nodes, Depth)).nodes) == multiset(nodes)
  {
    SortByPermutation(nodes, Depth);
    ArrangeBuilt(SortBy(nodes, Depth), |nodes|);
  }

  // ---------------------------------------------------- whole structure

  /**
   * `extractMindMapStructure()`: the collected nodes arranged into a
   * well-formed forest that lists each of them once.
   */
  function Structure(els: seq<NodeElement>): (r: Forest)
    ensures WellFormed(r) && |PreOrder(r)| == |Collected(els)|
  {
    ForestHoldsEveryNode(Collected(els));
    Arrange(SortBy(Collected(els), Depth))
  }

  /** `extractMindMapStructure()`, through the methods that collect and arrange the nodes. */
  method ExtractMindMapStructure(els: seq<NodeElement>) returns (forest: Forest)
    ensures forest == Structure(els)
  {
    var nodes := CollectNodes(els);
    forest := BuildHierarchy(nodes);
  }

  // ------------------------------------------------------------ texts

  /** The texts of the nodes at the given positions. */
  function TextsAt(nodes: seq<InsightNode>, s: seq<nat>): (r: seq<string>)
    requires forall i :: 0 <= i < |s| ==> s[i] < |nodes|
    ensures |r| == |s| && forall i :: 0 <= i < |s| ==> r[i] == nodes[s[i]].text
  {
    seq(|s|, i requires 0 <= i < |s| => nodes[s[i]].text)
  }

  lemma TextsAtAppend(nodes: seq<InsightNode>, a: seq<nat>, b: seq<nat>)
    requires forall i :: 0 <= i < |a| ==> a[i] < |nodes|
    requires forall i :: 0 <= i < |b| ==> b[i] < |nodes|
    ensures TextsAt(nodes, a + b) == TextsAt(nodes, a) + TextsAt(nodes, b)
  {
  }

  /** `extractAllTexts(nodes)`: every text of the forest, in pre-order. */
  function AllTexts(f: Forest): seq<string>
    requires WellFormed(f)
  {
    TextsAt(f.nodes, PreOrder(f))
  }

  /** The pre-order text list has one entry per input node, and holds every node's text. */
  lemma AllTextsCount(nodes: seq<InsightNode>)
    ensures WellFormed(Arrange(SortBy(nodes, Depth)))
    ensures |AllTexts(Arrange(SortBy(nodes, Depth)))| == |nodes|
    ensures forall i :: 0 <= i < |nodes| ==> nodes[i].text in AllTexts(Arrange(SortBy(nodes, Depth)))
  {
    ForestHoldsEveryNode(nodes);
    var f := Arrange(SortBy(nodes, Depth));
    forall i | 0 <= i < |nodes| ensures nodes[i].text in AllTexts(f) {
      assert nodes[i] in multiset(f.nodes);
      var j: nat :| j < |f.nodes| && f.nodes[j] == nodes[i];
      OccurringIsIn(PreOrder(f), j);
      var m :| 0 <= m < |PreOrder(f)| && PreOrder(f)[m] == j;
      assert AllTexts(f)[m] == nodes[i].text;
    }
  }

  /** `traverse(node)`: the node's text, then the subtrees of its children in order. */
  method Traverse(f: Forest, x: nat, texts: seq<string>) returns (out: seq<string>)
    requires WellFormed(f) && x < |f.nodes|
    ensures out == texts + TextsAt(f.nodes, Pre(f.children, |f.nodes|, x))
    decreases |f.nodes| - x, 1
  {
    out := texts + [f.nodes[x].text];
    out := TraverseEach(f, f.children[x], x, out);
    ghost var below := PreList(f.children, |f.nodes|, f.children[x], x);
    TextsAtAppend(f.nodes, [x], below);
    assert TextsAt(f.nodes, [x]) == [f.nodes[x].text];
    Regroup(texts, [f.nodes[x].text], TextsAt(f.nodes, below));
  }

  /** `list.forEach(traverse)`. */
  method TraverseEach(f: Forest, list: seq<nat>, lo: int, texts: seq<string>) returns (out: seq<string>)
    requires WellFormed(f) && forall j :: 0 <= j < |list| ==> lo < list[j] < |f.nodes|
    ensures out == texts + TextsAt(f.nodes, PreList(f.children, |f.nodes|, list, lo))
    decreases |f.nodes| - lo, 0
  {
    var n := |f.nodes|;
    out := texts;
    for j := 0 to |list|
      invariant out == texts + TextsAt(f.nodes, PreList(f.children, n, list[..j], lo))
    {
      ghost var done := PreList(f.children, n, list[..j], lo);
      out := Traverse(f, list[j], out);
      assert list[..j + 1] == list[..j] + [list[j]];
      PreListAppend(f.children, n, list[..j], [list[j]], lo);
      assert [list[j]][1..] == [];
      assert PreList(f.children, n, [list[j]], lo) == Pre(f.children, n, list[j]);
      TextsAtAppend(f.nodes, done, Pre(f.children, n, list[j]));
      Regroup(texts, TextsAt(f.nodes, done), TextsAt(f.nodes, Pre(f.children, n, list[j])));
    }
    assert list[..|list|] == list;
  }

  /** `extractAllTexts(nodes)`. */
  method ExtractAllTexts(f: Forest) returns (texts: seq<string>)
    requires WellFormed(f)
    ensures texts == AllTexts(f)
  {
    texts := TraverseEach(f, f.roots, -1, []);
  }

  // ------------------------------------------------------- formatting

  /** The outline of the subtree of `x`: a `- text` line at `indent`, then the children two spaces deeper. */
  function FormatPre(f: Forest, x: nat, indent: string): string
    requires WellFormed(f) && x < |f.nodes|
    decreases |f.nodes| - x, 1
  {
    indent + "- " + f.nodes[x].text + "\n" + FormatList(f, f.children[x], x, indent + "  ")
  }

  /** The outlines of the subtrees of `list`, one after the other. */
  function FormatList(f: Forest, list: seq<nat>, lo: int, indent: string): string
    requires WellFormed(f) && forall j :: 0 <= j < |list| ==> lo < list[j] < |f.nodes|
    decreases |f.nodes| - lo, 0, |list|
  {
    if list == [] then "" else FormatPre(f, list[0], indent) + FormatList(f, list[1..], lo, indent)
  }

  /** When no text holds a line break, the outline has exactly one line per node of the pre-order. */
  lemma {:induction false} FormatPreLines(f: Forest, x: nat, indent: string)
    requires WellFormed(f) && x < |f.nodes|
    requires forall i :: 0 <= i < |f.nodes| ==> '\n' !in f.nodes[i].text
    requires '\n' !in indent
    ensures Occurrences(FormatPre(f, x, indent), '\n') == |Pre(f.children, |f.nodes|, x)|
    decreases |f.nodes| - x, 1
  {
    var line := indent + "- " + f.nodes[x].text;
    NoOccurrence(line, '\n');
    OccurrencesAppend(line, "\n", '\n');
    NoOccurrence(indent + "  ", '\n');
    FormatListLines(f, f.children[x], x, indent + "  ");
    OccurrencesAppend(line + "\n", FormatList(f, f.children[x], x, indent + "  "), '\n');
  }

  lemma {:induction false} FormatListLines(f: Forest, list: seq<nat>, lo: int, indent: string)
    requires WellFormed(f) && forall j :: 0 <= j < |list| ==> lo < list[j] < |f.nodes|
    requires forall i :: 0 <= i < |f.nodes| ==> '\n' !in f.nodes[i].text
    requires '\n' !in indent
    ensures Occurrences(FormatList(f, list, lo, indent), '\n') == |PreList(f.children, |f.nodes|, list, lo)|
    decreases |f.nodes| - lo, 0, |list|
  {
    if list != [] {
      FormatPreLines(f, list[0], indent);
      FormatListLines(f, list[1..], lo, indent);
      OccurrencesAppend(FormatPre(f, list[0], indent), FormatList(f, list[1..], lo, indent), '\n');
    }
  }

  /** `formatMindMapForAnalysis(nodes)`: `traverse(node, indent)` appends a line and recurses into the children. */
  method FormatMindMapForAnalysis(f: Forest) returns (formatted: string)
    requires WellFormed(f)
    ensures formatted == FormatList(f, f.roots, -1, "")
  {
    formatted := FormatEach(f, f.roots, -1, "", "");
  }

  /** `traverse(node, indent)`. */
  method FormatNode(f: Forest, x: nat, indent: string, formatted: string) returns (out: string)
    requires WellFormed(f) && x < |f.nodes|
    ensures out == formatted + FormatPre(f, x, indent)
    decreases |f.nodes| - x, 1
  {
    var line := indent + "- " + f.nodes[x].text + "\n";
    out := formatted + line;
    out := FormatEach(f, f.children[x], x, indent + "  ", out);
    Regroup(formatted, line, FormatList(f, f.children[x], x, indent + "  "));
  }

  /** `children.forEach(child => traverse(child, indent))`. */
  method FormatEach(f: Forest, list: seq<nat>, lo: int, indent: string, formatted: string) returns (out: string)
    requires WellFormed(f) && forall j :: 0 <= j < |list| ==> lo < list[j] < |f.nodes|
    ensures out == formatted + FormatList(f, list, lo, indent)
    decreases |f.nodes| - lo, 0
  {
    out := formatted;
    for j := 0 to |list|
      invariant out == formatted + FormatList(f, list[..j], lo, indent)
    {
      ghost var done := FormatList(f, list[..j], lo, indent);
      out := FormatNode(f, list[j], indent, out);
      assert list[..j + 1] == list[..j] + [list[j]];
      FormatListAppend(f, list[..j], [list[j]], lo, indent);
      assert [list[j]][1..] == [];
      assert FormatList(f, [list[j]], lo, indent) == FormatPre(f, list[j], indent);
      Regroup(formatted, done, FormatPre(f, list[j], indent));
    }
    assert list[..|list|] == list;
  }

  lemma {:induction false} FormatListAppend(f: Forest, a: seq<nat>, b: seq<nat>, lo: int, indent: string)
    requires WellFormed(f)
    requires forall j :: 0 <= j < |a| ==> lo < a[j] < |f.nodes|
    requires forall j :: 0 <= j < |b| ==> lo < b[j] < |f.nodes|
    ensures FormatList(f, a + b, lo, indent) == FormatList(f, a, lo, indent) + FormatList(f, b, lo, indent)
  {
    if a == [] {
      assert a + b == b;
    } else {
      assert (a + b)[0] == a[0];
      assert (a + b)[1..] == a[1..] + b;
      FormatListAppend(f, a[1..], b, lo, indent);
      Regroup(FormatPre(f, a[0], indent), FormatList(f, a[1..], lo, indent), FormatList(f, b, lo, indent));
    }
  }
}
