/**
 * The bundled content script: it caches the mind-map container, walks the
 * node tree clicking toggle buttons, produces a text outline, highlights
 * search matches, injects a toolbar once and keeps a theme flag.
 *
 * The page below the container is a forest of `.node` elements. A node's
 * own `.node-label-text` (if any) comes first in document order, then its
 * direct toggle buttons, then its `.node-children`.
 */
module DistExpander {
  import opened Wrappers
  import opened Text
  import opened Seqs

  const ExpandLabel: string := "Expand"
  const CollapseLabel: string := "Collapse"
  const NotFoundMessage: string := "Mind map not found."

  /** A toggle button directly below a `.node`, with its `aria-label`. */
  datatype Button = Button(id: nat, ariaLabel: string)

  /**
   * A `.node` element: `labelText` is the text content of the node's own
   * `.node-label-text` element (None when it has none), `buttons` its direct
   * child buttons, `children` the `.node` elements of its `.node-children`.
   */
  datatype DomNode = DomNode(id: nat, labelText: Option<string>, buttons: seq<Button>, children: seq<DomNode>)

  /** A mind-map container and the top-level `.node` elements inside it, in document order. */
  datatype Container = Container(id: nat, nodes: seq<DomNode>)

  /**
   * What the script sees of the document: the ids of the elements attached
   * to `document.body`, and the answer of
   * `querySelector('div[class^="MindMapViewer"]')`.
   */
  datatype Document = Document(attached: set<nat>, firstMatch: Option<Container>)

  /** A container found by the query is itself attached to the document. */
  predicate WellFormed(doc: Document) {
    doc.firstMatch.Some? ==> doc.firstMatch.value.id in doc.attached
  }

  /** One `btn.click()`, with the nesting depth of the button's node below where the walk started. */
  datatype Click = Click(button: Button, depth: nat)

  /** `:scope > button[aria-label^="prefix"]`: the buttons whose label starts with `prefix`, in order. */
  function MatchingButtons(buttons: seq<Button>, prefix: string): (r: seq<Button>)
    ensures |r| <= |buttons|
    ensures forall i :: 0 <= i < |r| ==> StartsWith(r[i].ariaLabel, prefix)
  {
    if buttons == [] then []
    else (if StartsWith(buttons[0].ariaLabel, prefix) then [buttons[0]] else []) + MatchingButtons(buttons[1..], prefix)
  }

  /** A button is selected exactly when it is one of the node's buttons and its label starts with the prefix. */
  lemma {:induction false} MatchingButtonsSpec(buttons: seq<Button>, prefix: string, b: Button)
    ensures b in MatchingButtons(buttons, prefix) <==> b in buttons && StartsWith(b.ariaLabel, prefix)
  {
    if buttons != [] {
      MatchingButtonsSpec(buttons[1..], prefix, b);
      assert buttons == [buttons[0]] + buttons[1..];
    }
  }

  /** The clicks on `bs`, in order, all at one depth. */
  function ClicksAt(bs: seq<Button>, depth: nat): (r: seq<Click>)
    ensures |r| == |bs|
    ensures forall i :: 0 <= i < |bs| ==> r[i] == Click(bs[i], depth)
  {
    if bs == [] then [] else [Click(bs[0], depth)] + ClicksAt(bs[1..], depth)
  }

  /** The depth guard of the walk: it stops once `currentDepth` reaches a bound other than -1. */
  predicate Stopped(maxDepth: int, depth: nat) {
    maxDepth != -1 && depth >= maxDepth
  }

  /** Every click lies at or below `depth`, on a button labelled with `prefix`, and above a bound `maxDepth`. */
  predicate WithinWalk(c: Click, prefix: string, maxDepth: int, depth: nat) {
    depth <= c.depth && StartsWith(c.button.ariaLabel, prefix) && (maxDepth != -1 ==> c.depth < maxDepth)
  }

  /**
   * The clicks `walkAndToggle(node, prefix, maxDepth, depth)` performs:
   * nothing past the depth bound, otherwise the clicks of the node's
   * matching buttons.
   */
  function Toggle(node: DomNode, prefix: string, maxDepth: int, depth: nat): (r: seq<Click>)
    ensures r == [] <==> Stopped(maxDepth, depth) || MatchingButtons(node.buttons, prefix) == []
    decreases node, 2
  {
    if Stopped(maxDepth, depth) then []
    else PerButton(node, MatchingButtons(node.buttons, prefix), 0, prefix, maxDepth, depth)
  }

  /**
   * The clicks for the matching buttons `bs[j..]` of `node`: each is
   * clicked, and after each one the children are walked one level deeper,
   * but only when expanding.
   */
  function PerButton(node: DomNode, bs: seq<Button>, j: nat, prefix: string, maxDepth: int, depth: nat): (r: seq<Click>)
    requires j <= |bs|
    ensures r == [] <==> j == |bs|
    decreases node, 1, |bs| - j
  {
    if j == |bs| then []
    else
      [Click(bs[j], depth)]
      + (if prefix == ExpandLabel then ToggleAll(node, 0, prefix, maxDepth, depth + 1) else [])
      + PerButton(node, bs, j + 1, prefix, maxDepth, depth)
  }

  /** The clicks of walking the children `parent.children[i..]`, in order, at `depth`. */
  function ToggleAll(parent: DomNode, i: nat, prefix: string, maxDepth: int, depth: nat): seq<Click>
    requires i <= |parent.children|
    decreases parent, 0, |parent.children| - i
  {
    if i == |parent.children| then []
    else Toggle(parent.children[i], prefix, maxDepth, depth) + ToggleAll(parent, i + 1, prefix, maxDepth, depth)
  }

  /**
   * `walkAndToggle` with `maxDepth` other than -1 never clicks at or below
   * `maxDepth`; every click is on a button whose label starts with the prefix.
   */
  lemma {:induction false} ToggleWithinWalk(node: DomNode, prefix: string, maxDepth: int, depth: nat)
    ensures forall c :: c in Toggle(node, prefix, maxDepth, depth) ==> WithinWalk(c, prefix, maxDepth, depth)
    ensures maxDepth == 0 ==> Toggle(node, prefix, maxDepth, depth) == []
    decreases node, 2
  {
    if !Stopped(maxDepth, depth) {
      PerButtonWithinWalk(node, MatchingButtons(node.buttons, prefix), 0, prefix, maxDepth, depth);
    }
  }

  lemma {:induction false} PerButtonWithinWalk(node: DomNode, bs: seq<Button>, j: nat, prefix: string, maxDepth: int, depth: nat)
    requires j <= |bs| && !Stopped(maxDepth, depth)
    requires forall k :: 0 <= k < |bs| ==> StartsWith(bs[k].ariaLabel, prefix)
    ensures forall c :: c in PerButton(node, bs, j, prefix, maxDepth, depth) ==> WithinWalk(c, prefix, maxDepth, depth)
    decreases node, 1, |bs| - j
  {
    if j < |bs| {
      if prefix == ExpandLabel {
        ToggleAllWithinWalk(node, 0, prefix, maxDepth, depth + 1);
      }
      PerButtonWithinWalk(node, bs, j + 1, prefix, maxDepth, depth);
    }
  }

  lemma {:induction false} ToggleAllWithinWalk(parent: DomNode, i: nat, prefix: string, maxDepth: int, depth: nat)
    requires i <= |parent.children|
    ensures forall c :: c in ToggleAll(parent, i, prefix, maxDepth, depth) ==> WithinWalk(c, prefix, maxDepth, depth)
    decreases parent, 0, |parent.children| - i
  {
    if i < |parent.children| {
      ToggleWithinWalk(parent.children[i], prefix, maxDepth, depth);
      ToggleAllWithinWalk(parent, i + 1, prefix, maxDepth, depth);
    }
  }

  /** Any prefix other than "Expand" clicks the node's own matching buttons, in order, and never descends. */
  lemma {:induction false} OnlyExpandDescends(node: DomNode, prefix: string, maxDepth: int, depth: nat)
    requires prefix != ExpandLabel && !Stopped(maxDepth, depth)
    ensures Toggle(node, prefix, maxDepth, depth) == ClicksAt(MatchingButtons(node.buttons, prefix), depth)
  {
    var bs := MatchingButtons(node.buttons, prefix);
    PerButtonShallow(node, bs, 0, prefix, maxDepth, depth);
  }

  lemma {:induction false} PerButtonShallow(node: DomNode, bs: seq<Button>, j: nat, prefix: string, maxDepth: int, depth: nat)
    requires j <= |bs| && prefix != ExpandLabel
    ensures PerButton(node, bs, j, prefix, maxDepth, depth) == ClicksAt(bs[j..], depth)
    decreases |bs| - j
  {
    if j < |bs| {
      PerButtonShallow(node, bs, j + 1, prefix, maxDepth, depth);
      assert bs[j..][1..] == bs[j + 1..];
    }
  }

  /** The clicks of `cs` made at nesting depth `d`, in order. */
  function ClicksAtDepth(cs: seq<Click>, d: nat): (r: seq<Click>)
    ensures forall c :: c in r ==> c in cs && c.depth == d
  {
    if cs == [] then [] else (if cs[0].depth == d then [cs[0]] else []) + ClicksAtDepth(cs[1..], d)
  }

  lemma {:induction false} ClicksAtDepthAppend(a: seq<Click>, b: seq<Click>, d: nat)
    ensures ClicksAtDepth(a + b, d) == ClicksAtDepth(a, d) + ClicksAtDepth(b, d)
  {
    if a != [] {
      ClicksAtDepthAppend(a[1..], b, d);
      assert (a + b)[1..] == a[1..] + b;
    } else {
      assert a + b == b;
    }
  }

  lemma {:induction false} ClicksAtDepthDeeper(cs: seq<Click>, d: nat)
    requires forall c :: c in cs ==> d < c.depth
    ensures ClicksAtDepth(cs, d) == []
  {
    if cs != [] {
      ClicksAtDepthDeeper(cs[1..], d);
    }
  }

  /**
   * Completeness at the walk's own level: below the bound (always, when
   * `maxDepth` is -1) every matching direct button of the node is clicked,
   * once and in document order, and nothing else is clicked at that depth.
   */
  lemma ToggleClicksOwnButtons(node: DomNode, prefix: string, maxDepth: int, depth: nat)
    requires maxDepth == -1 || depth < maxDepth
    ensures ClicksAtDepth(Toggle(node, prefix, maxDepth, depth), depth) == ClicksAt(MatchingButtons(node.buttons, prefix), depth)
  {
    var bs := MatchingButtons(node.buttons, prefix);
    PerButtonOwnClicks(node, bs, 0, prefix, maxDepth, depth);
  }

  lemma {:induction false} PerButtonOwnClicks(node: DomNode, bs: seq<Button>, j: nat, prefix: string, maxDepth: int, depth: nat)
    requires j <= |bs| && !Stopped(maxDepth, depth)
    ensures ClicksAtDepth(PerButton(node, bs, j, prefix, maxDepth, depth), depth) == ClicksAt(bs[j..], depth)
    decreases |bs| - j
  {
    if j < |bs| {
      var below := if prefix == ExpandLabel then ToggleAll(node, 0, prefix, maxDepth, depth + 1) else [];
      var rest := PerButton(node, bs, j + 1, prefix, maxDepth, depth);
      assert PerButton(node, bs, j, prefix, maxDepth, depth) == [Click(bs[j], depth)] + below + rest;
      ChildWalksAreDeeper(node, prefix, maxDepth, depth);
      SkipDeeper(Click(bs[j], depth), below, rest);
      PerButtonOwnClicks(node, bs, j + 1, prefix, maxDepth, depth);
      ClicksAtFrom(bs, j, depth);
    }
  }

  /** The children's walks after a button lie strictly deeper than the button. */
  lemma ChildWalksAreDeeper(node: DomNode, prefix: string, maxDepth: int, depth: nat)
    ensures ClicksAtDepth(if prefix == ExpandLabel then ToggleAll(node, 0, prefix, maxDepth, depth + 1) else [], depth) == []
  {
    if prefix == ExpandLabel {
      ToggleAllWithinWalk(node, 0, prefix, maxDepth, depth + 1);
      ClicksAtDepthDeeper(ToggleAll(node, 0, prefix, maxDepth, depth + 1), depth);
    }
  }

  lemma SkipDeeper(c: Click, below: seq<Click>, rest: seq<Click>)
    requires ClicksAtDepth(below, c.depth) == []
    ensures ClicksAtDepth([c] + below + rest, c.depth) == [c] + ClicksAtDepth(rest, c.depth)
  {
    ClicksAtDepthAppend([c] + below, rest, c.depth);
    ClicksAtDepthAppend([c], below, c.depth);
  }

  lemma ClicksAtFrom(bs: seq<Button>, j: nat, depth: nat)
    requires j < |bs|
    ensures ClicksAt(bs[j..], depth) == [Click(bs[j], depth)] + ClicksAt(bs[j + 1..], depth)
  {
    assert bs[j..][1..] == bs[j + 1..];
  }

  /**
   * Completeness one level down: an Expand walk below the bound that
   * clicks a button of the node walks every child one level deeper, so
   * each click of a child's walk is a click of the node's walk.
   */
  lemma ExpandReachesChildren(node: DomNode, maxDepth: int, depth: nat, i: nat, c: Click)
    requires maxDepth == -1 || depth < maxDepth
    requires MatchingButtons(node.buttons, ExpandLabel) != [] && i < |node.children|
    requires c in Toggle(node.children[i], ExpandLabel, maxDepth, depth + 1)
    ensures c in Toggle(node, ExpandLabel, maxDepth, depth)
  {
    ToggleAllContains(node, 0, i, ExpandLabel, maxDepth, depth + 1, c);
  }

  lemma {:induction false} ToggleAllContains(parent: DomNode, i: nat, k: nat, prefix: string, maxDepth: int, depth: nat, c: Click)
    requires i <= k < |parent.children| && c in Toggle(parent.children[k], prefix, maxDepth, depth)
    ensures c in ToggleAll(parent, i, prefix, maxDepth, depth)
    decreases k - i
  {
    if i < k {
      ToggleAllContains(parent, i + 1, k, prefix, maxDepth, depth, c);
    }
  }

  /** A node, its nesting depth, and so its place in a pre-order walk. */
  datatype Entry = Entry(node: DomNode, depth: nat)

  /** The nodes of a forest in document (pre-) order: parent before its children, siblings in order. */
  function Preorder(ns: seq<DomNode>, depth: nat): seq<Entry>
    decreases ns
  {
    if ns == [] then []
    else [Entry(ns[0], depth)] + Preorder(ns[0].children, depth + 1) + Preorder(ns[1..], depth)
  }

  /** The number of nodes in a forest. */
  function NodeCount(ns: seq<DomNode>): nat
    decreases ns
  {
    if ns == [] then 0 else 1 + NodeCount(ns[0].children) + NodeCount(ns[1..])
  }

  lemma {:induction false} PreorderAppend(a: seq<DomNode>, b: seq<DomNode>, depth: nat)
    ensures Preorder(a + b, depth) == Preorder(a, depth) + Preorder(b, depth)
    decreases a
  {
    if a == [] {
      assert a + b == b;
    } else {
      assert (a + b)[0] == a[0];
      assert (a + b)[1..] == a[1..] + b;
      PreorderAppend(a[1..], b, depth);
    }
  }

  /** The pre-order walk visits every node exactly once. */
  lemma {:induction false} PreorderLength(ns: seq<DomNode>, depth: nat)
    ensures |Preorder(ns, depth)| == NodeCount(ns)
    decreases ns
  {
    if ns != [] {
      PreorderLength(ns[0].children, depth + 1);
      PreorderLength(ns[1..], depth);
    }
  }

  lemma PreorderOne(n: DomNode, depth: nat)
    ensures Preorder([n], depth) == [Entry(n, depth)] + Preorder(n.children, depth + 1)
  {
    assert [n][1..] == [];
  }

  // ---------------------------------------------------------------- outline

  /**
   * `node.querySelector('.node-label-text')` for each node of `ns` in turn:
   * the first label element at or below them in document order.
   */
  function FirstLabel(ns: seq<DomNode>): Option<string>
    decreases ns
  {
    if ns == [] then None
    else if ns[0].labelText.Some? then ns[0].labelText
    else
      var below := FirstLabel(ns[0].children);
      if below.Some? then below else FirstLabel(ns[1..])
  }

  /** The trimmed label `walk` reads at a node, "" when there is none. */
  function OutlineLabel(n: DomNode): string {
    match FirstLabel([n])
    case Some(text) => Trim(text)
    case None => ""
  }

  /** The outline line of one visited node; nothing when its trimmed label is empty. */
  function OutlineLine(e: Entry): string {
    var text := OutlineLabel(e.node);
    if text == "" then "" else Indent(e.depth) + "- " + text + "\n"
  }

  /** The lines of a sequence of visited nodes, concatenated. */
  function OutlineLines(es: seq<Entry>): string {
    if es == [] then "" else OutlineLine(es[0]) + OutlineLines(es[1..])
  }

  lemma {:induction false} OutlineLinesAppend(a: seq<Entry>, b: seq<Entry>)
    ensures OutlineLines(a + b) == OutlineLines(a) + OutlineLines(b)
  {
    if a == [] {
      assert a + b == b;
    } else {
      assert (a + b)[0] == a[0] && (a + b)[1..] == a[1..] + b;
      OutlineLinesAppend(a[1..], b);
      Regroup(OutlineLine(a[0]), OutlineLines(a[1..]), OutlineLines(b));
    }
  }

  /** The outline text of a forest before the final trim: one line per labelled node, in pre-order. */
  function Outline(ns: seq<DomNode>, depth: nat): string {
    OutlineLines(Preorder(ns, depth))
  }

  /** What `walk(node, depth)` appends: the node's line, then its children one level deeper. */
  function NodeOutline(n: DomNode, depth: nat): string
    decreases n, 1
  {
    OutlineLine(Entry(n, depth)) + ChildrenOutline(n, 0, depth + 1)
  }

  /** What the walks of `parent.children[i..]` append. */
  function ChildrenOutline(parent: DomNode, i: nat, depth: nat): string
    requires i <= |parent.children|
    decreases parent, 0, |parent.children| - i
  {
    if i == |parent.children| then "" else NodeOutline(parent.children[i], depth) + ChildrenOutline(parent, i + 1, depth)
  }

  /** The recursive walk emits exactly the lines of the pre-order list of nodes. */
  lemma {:induction false} NodeOutlineIsPreorder(n: DomNode, depth: nat)
    ensures NodeOutline(n, depth) == Outline([n], depth)
    decreases n, 1
  {
    ChildrenOutlineIsPreorder(n, 0, depth + 1);
    assert n.children[0..] == n.children;
    PreorderOne(n, depth);
    OutlineLinesAppend([Entry(n, depth)], Preorder(n.children, depth + 1));
  }

  lemma {:induction false} ChildrenOutlineIsPreorder(parent: DomNode, i: nat, depth: nat)
    requires i <= |parent.children|
    ensures ChildrenOutline(parent, i, depth) == Outline(parent.children[i..], depth)
    decreases parent, 0, |parent.children| - i
  {
    if i < |parent.children| {
      var child, rest := parent.children[i], parent.children[i + 1..];
      assert parent.children[i..] == [child] + rest;
      assert Preorder(parent.children[i..], depth) == Preorder([child], depth) + Preorder(rest, depth) by {
        PreorderAppend([child], rest, depth);
      }
      assert Outline(parent.children[i..], depth) == Outline([child], depth) + Outline(rest, depth) by {
        OutlineLinesAppend(Preorder([child], depth), Preorder(rest, depth));
      }
      NodeOutlineIsPreorder(child, depth);
      ChildrenOutlineIsPreorder(parent, i + 1, depth);
    }
  }

  /** What `generateOutline` returns for a cached container. */
  function OutlineDocument(c: Container): string {
    if c.nodes == [] then "" else Trim(NodeOutline(c.nodes[0], 0))
  }

  /** A subtree without any label element contributes no line at all. */
  lemma {:induction false} UnlabelledSubtreeIsSilent(ns: seq<DomNode>, depth: nat)
    requires FirstLabel(ns) == None
    ensures Outline(ns, depth) == ""
    decreases ns
  {
    if ns != [] {
      assert FirstLabel([ns[0]]) == None by {
        assert [ns[0]][1..] == [];
      }
      UnlabelledSubtreeIsSilent(ns[0].children, depth + 1);
      UnlabelledSubtreeIsSilent(ns[1..], depth);
      OutlineLinesAppend([Entry(ns[0], depth)] + Preorder(ns[0].children, depth + 1), Preorder(ns[1..], depth));
      OutlineLinesAppend([Entry(ns[0], depth)], Preorder(ns[0].children, depth + 1));
    }
  }

  /**
   * The label query searches the whole subtree: a node without a label of
   * its own shows the label of its first labelled descendant.
   */
  lemma UnlabelledNodeBorrowsLabel(n: DomNode, depth: nat)
    requires n.labelText.None? && n.children != [] && n.children[0].labelText.Some?
    requires Trim(n.children[0].labelText.value) != ""
    ensures OutlineLine(Entry(n, depth)) == Indent(depth) + "- " + Trim(n.children[0].labelText.value) + "\n"
  {
    assert FirstLabel([n]) == FirstLabel(n.children);
  }

  /** The labelled nodes of `es` whose label contains no line break. */
  predicate SingleLineLabels(es: seq<Entry>) {
    forall i :: 0 <= i < |es| ==> '\n' !in OutlineLabel(es[i].node)
  }

  /** The number of labelled entries. */
  function LabelledCount(es: seq<Entry>): nat {
    if es == [] then 0 else (if OutlineLabel(es[0].node) == "" then 0 else 1) + LabelledCount(es[1..])
  }

  /** With single-line labels, the outline has exactly one line per labelled node. */
  lemma {:induction false} OutlineLinesBreaks(es: seq<Entry>)
    requires SingleLineLabels(es)
    ensures multiset(OutlineLines(es))['\n'] == LabelledCount(es)
  {
    if es != [] {
      assert '\n' !in Indent(es[0].depth);
      OutlineLinesBreaks(es[1..]);
    }
  }

  /** A label that is non-empty and starts and ends with a non-blank character. */
  predicate Blankless(s: string) {
    s != [] && !IsWhitespace(s[0]) && !IsWhitespace(s[|s| - 1])
  }

  /**
   * A page shaped like the one of the outline and expand tests: a root with
   * two children, the first with one child. The tests' `test.html` is not
   * part of this model: the placement of the two Expand buttons, on the root
   * and on the first child, is assumed so as to match the test's
   * expectation of two clicks; only the labels come from the tests.
   */
  function FourNodePage(root: string, child1: string, grandchild: string, child2: string): DomNode {
    DomNode(1, Some(root), [Button(10, "Expand node")], [
      DomNode(2, Some(child1), [Button(20, "Expand node")], [DomNode(3, Some(grandchild), [], [])]),
      DomNode(4, Some(child2), [], [])
    ])
  }

  /** The assumed test page (see `FourNodePage`), with the labels the tests use. */
  function Fixture(): DomNode {
    FourNodePage("Root", "Child 1", "Grandchild 1", "Child 2")
  }

  /** A labelled node's outline line. */
  lemma LabelledLine(n: DomNode, depth: nat)
    requires n.labelText.Some? && Blankless(n.labelText.value)
    ensures OutlineLine(Entry(n, depth)) == Indent(depth) + "- " + n.labelText.value + "\n"
  {
    assert [n][1..] == [];
    TrimIdentity(n.labelText.value);
  }

  /** The outline of the four-node page: its four labels, indented by depth, without the final line break. */
  lemma FourNodeOutline(root: string, child1: string, grandchild: string, child2: string)
    requires Blankless(root) && Blankless(child1) && Blankless(grandchild) && Blankless(child2)
    ensures OutlineDocument(Container(0, [FourNodePage(root, child1, grandchild, child2)]))
         == ("- " + root + "\n") + ("  - " + child1 + "\n") + ("    - " + grandchild + "\n") + ("  - " + child2)
  {
    var f := FourNodePage(root, child1, grandchild, child2);
    var c1 := f.children[0];
    var g := c1.children[0];
    var c2 := f.children[1];
    var l0, l1, l2, l3 := "- " + root + "\n", "  - " + child1 + "\n", "    - " + grandchild + "\n", "  - " + child2;
    assert Indent(0) + "- " == "- ";
    assert Indent(1) + "- " == "  - ";
    assert Indent(2) + "- " == "    - ";
    LabelledLine(f, 0);
    LabelledLine(c1, 1);
    LabelledLine(g, 2);
    LabelledLine(c2, 1);
    assert NodeOutline(g, 2) == l2 + "" == l2;
    assert ChildrenOutline(c1, 0, 2) == l2 + "" == l2;
    assert NodeOutline(c1, 1) == l1 + l2;
    assert NodeOutline(c2, 1) == (l3 + "\n") + "" == l3 + "\n";
    assert ChildrenOutline(f, 1, 1) == (l3 + "\n") + "" == l3 + "\n";
    assert NodeOutline(f, 0) == l0 + ((l1 + l2) + (l3 + "\n"));
    Regroup(l0, l1 + l2, l3 + "\n");
    Regroup(l0, l1, l2);
    Regroup(l0 + l1 + l2, l3, "\n");
    var outline := l0 + l1 + l2 + l3;
    assert NodeOutline(f, 0) == "" + outline + "\n";
    assert outline[0] == '-';
    assert outline[|outline| - 1] == child2[|child2| - 1];
    TrimPadded("", outline, "\n");
  }

  /** The lines of the test page, each as the outline writes it. */
  lemma FixtureLines(root: string, child1: string, grandchild: string, child2: string)
    requires root == "Root" && child1 == "Child 1" && grandchild == "Grandchild 1" && child2 == "Child 2"
    ensures "- " + root + "\n" == "- Root\n"
    ensures "  - " + child1 + "\n" == "  - Child 1\n"
    ensures "    - " + grandchild + "\n" == "    - Grandchild 1\n"
    ensures "  - " + child2 == "  - Child 2"
  {
  }

  /** With the labels of the test page, the outline is exactly the string the outline test expects. */
  lemma OutlineOfFixture(root: string, child1: string, grandchild: string, child2: string)
    requires root == "Root" && child1 == "Child 1" && grandchild == "Grandchild 1" && child2 == "Child 2"
    ensures OutlineDocument(Container(0, [FourNodePage(root, child1, grandchild, child2)]))
         == "- Root\n" + "  - Child 1\n" + "    - Grandchild 1\n" + "  - Child 2"
  {
    FixtureLines(root, child1, grandchild, child2);
    FourNodeOutline(root, child1, grandchild, child2);
  }

  /** A node whose own label is blank contributes no line. */
  lemma BlankLabelIsSilent(n: DomNode)
    requires n.labelText.Some?
    requires forall i :: 0 <= i < |n.labelText.value| ==> IsWhitespace(n.labelText.value[i])
    ensures OutlineLabel(n) == ""
  {
    assert [n][1..] == [];
    TrimStartPrepended(n.labelText.value, "");
    assert n.labelText.value + "" == n.labelText.value;
  }

  /** A silent node with a single child outputs just that child's outline. */
  lemma SilentSingleParent(n: DomNode, depth: nat)
    requires OutlineLabel(n) == "" && |n.children| == 1
    ensures NodeOutline(n, depth) == NodeOutline(n.children[0], depth + 1)
  {
    assert ChildrenOutline(n, 1, depth + 1) == "";
    assert ChildrenOutline(n, 0, depth + 1) == NodeOutline(n.children[0], depth + 1) + "";
  }

  /** A leaf outputs its own line only. */
  lemma LeafOutline(n: DomNode, depth: nat)
    requires n.children == []
    ensures NodeOutline(n, depth) == OutlineLine(Entry(n, depth))
  {
    assert NodeOutline(n, depth) == OutlineLine(Entry(n, depth)) + "";
  }

  /**
   * The final trim also strips the indentation of the first line when the
   * root's label is blank: the root contributes no line and its child's
   * line loses its two leading spaces.
   */
  lemma BlankRootLosesFirstIndent(blank: string, text: string)
    requires forall i :: 0 <= i < |blank| ==> IsWhitespace(blank[i])
    requires Blankless(text)
    ensures OutlineDocument(Container(0, [DomNode(1, Some(blank), [], [DomNode(2, Some(text), [], [])])])) == "- " + text
  {
    var a := DomNode(2, Some(text), [], []);
    var root := DomNode(1, Some(blank), [], [a]);
    var line := "- " + text;
    assert NodeOutline(root, 0) == Indent(1) + line + "\n" by {
      BlankLabelIsSilent(root);
      SilentSingleParent(root, 0);
      LeafOutline(a, 1);
      LabelledLine(a, 1);
      Regroup(Indent(1), "- ", text);
    }
    assert line[0] == '-' && line[|line| - 1] == text[|text| - 1];
    TrimPadded(Indent(1), line, "\n");
  }

  // --------------------------------------------------------- collapse, search

  /** `querySelectorAll('button[aria-label^="Collapse"]')` over visited nodes: their Collapse buttons in document order. */
  function CollapseButtons(es: seq<Entry>): (r: seq<Click>)
    ensures forall c :: c in r ==> StartsWith(c.button.ariaLabel, CollapseLabel)
  {
    if es == [] then [] else ClicksAt(MatchingButtons(es[0].node.buttons, CollapseLabel), es[0].depth) + CollapseButtons(es[1..])
  }

  /** The ids of the first `n` visited nodes. */
  function NodeIds(es: seq<Entry>, n: nat): set<nat>
    requires n <= |es|
  {
    if n == 0 then {} else NodeIds(es, n - 1) + {es[n - 1].node.id}
  }

  /** An id is collected exactly when one of the first `n` nodes carries it. */
  lemma {:induction false} NodeIdsSpec(es: seq<Entry>, n: nat, id: nat)
    requires n <= |es|
    ensures id in NodeIds(es, n) <==> exists i :: 0 <= i < n && es[i].node.id == id
  {
    if n > 0 {
      NodeIdsSpec(es, n - 1, id);
    }
  }

  /** A node's label, lower-cased, contains the lower-cased query. */
  predicate LabelMatches(n: DomNode, query: string) {
    n.labelText.Some? && Contains(Lower(n.labelText.value), query)
  }

  /** The ids of the first `n` visited nodes whose label matches `query`. */
  function MatchIds(es: seq<Entry>, n: nat, query: string): set<nat>
    requires n <= |es|
  {
    if n == 0 then {}
    else MatchIds(es, n - 1, query) + (if LabelMatches(es[n - 1].node, query) then {es[n - 1].node.id} else {})
  }

  /** An id is collected exactly when one of the first `n` nodes carries it and its label matches. */
  lemma {:induction false} MatchIdsSpec(es: seq<Entry>, n: nat, query: string, id: nat)
    requires n <= |es|
    ensures id in MatchIds(es, n, query) <==> exists i :: 0 <= i < n && es[i].node.id == id && LabelMatches(es[i].node, query)
  {
    if n > 0 {
      MatchIdsSpec(es, n - 1, query, id);
    }
  }

  lemma {:induction false} ContainsExtended(s: string, q: string, x: string)
    requires Contains(s, q + x)
    ensures Contains(s, q)
  {
    if StartsWith(s, q + x) {
      assert s[..|q|] == (s[..|q + x|])[..|q|];
      assert (q + x)[..|q|] == q;
    } else {
      ContainsExtended(s[1..], q, x);
    }
  }

  /** Typing more of the query can only narrow the set of highlighted nodes. */
  lemma {:induction false} LongerQueryNarrows(es: seq<Entry>, n: nat, q: string, x: string)
    requires n <= |es|
    ensures MatchIds(es, n, q + x) <= MatchIds(es, n, q)
  {
    if n > 0 {
      if LabelMatches(es[n - 1].node, q + x) {
        ContainsExtended(Lower(es[n - 1].node.labelText.value), q, x);
      }
      LongerQueryNarrows(es, n - 1, q, x);
    }
  }

  /** `query.length` counts UTF-16 code units, so one character outside the Basic Multilingual Plane is long enough to search. */
  lemma AstralQueryIsSearched(value: string)
    requires value == "\U{1F600}"
    ensures |Lower(value)| == 1 && !(Utf16Length(Lower(value)) < 2)
  {
  }

  // ------------------------------------------------------------------ state

  /** The script's module-level state and what it has done to the page. */
  class Page {
    /** `lastContainer`: the cached container. */
    var lastContainer: Option<Container>
    /** `isDarkTheme`. */
    var isDarkTheme: bool
    /** The container the toolbar was appended to, if any. */
    var toolbarIn: Option<nat>
    /** Every button click so far, oldest first. */
    var clicks: seq<Click>
    /** The ids of the nodes carrying the highlight class. */
    var highlighted: set<nat>

    constructor()
      ensures lastContainer == None && !isDarkTheme && toolbarIn == None
      ensures clicks == [] && highlighted == {}
    {
      lastContainer := None;
      isDarkTheme := false;
      toolbarIn := None;
      clicks := [];
      highlighted := {};
    }

    /** `document.getElementById("nlm-expander-toolbar")` finds the toolbar. */
    predicate ToolbarPresent(doc: Document)
      reads this
    {
      toolbarIn.Some? && toolbarIn.value in doc.attached
    }

    /**
     * `ensureContainer`: a cached container still attached is kept without
     * querying; otherwise the cache is replaced only by a found container.
     */
    method EnsureContainer(doc: Document) returns (ok: bool)
      modifies this`lastContainer
      ensures old(lastContainer).Some? && old(lastContainer).value.id in doc.attached
              ==> ok && lastContainer == old(lastContainer)
      ensures !(old(lastContainer).Some? && old(lastContainer).value.id in doc.attached)
              ==> ok == doc.firstMatch.Some?
                  && lastContainer == (if ok then doc.firstMatch else old(lastContainer))
      ensures ok ==> lastContainer.Some?
    {
      if lastContainer.Some? && lastContainer.value.id in doc.attached {
        return true;
      }
      var container := doc.firstMatch;
      if container.Some? {
        lastContainer := container;
        return true;
      }
      return false;
    }

    /** `walkAndToggle(node, labelPrefix, maxDepth, currentDepth)`. */
    method WalkAndToggle(node: DomNode, prefix: string, maxDepth: int, depth: nat)
      modifies this`clicks
      ensures clicks == old(clicks) + Toggle(node, prefix, maxDepth, depth)
      decreases node, 1
    {
      if maxDepth != -1 && depth >= maxDepth {
        return;
      }
      var buttons := MatchingButtons(node.buttons, prefix);
      ghost var total := old(clicks) + PerButton(node, buttons, 0, prefix, maxDepth, depth);
      var j := 0;
      while j < |buttons|
        invariant 0 <= j <= |buttons|
        invariant total == clicks + PerButton(node, buttons, j, prefix, maxDepth, depth)
      {
        ghost var later := PerButton(node, buttons, j + 1, prefix, maxDepth, depth);
        ghost var below := if prefix == ExpandLabel then ToggleAll(node, 0, prefix, maxDepth, depth + 1) else [];
        Regroup(clicks, [Click(buttons[j], depth)] + below, later);
        Regroup(clicks, [Click(buttons[j], depth)], below);
        clicks := clicks + [Click(buttons[j], depth)];
        if prefix == ExpandLabel {
          WalkChildren(node, prefix, maxDepth, depth + 1);
        }
        j := j + 1;
      }
    }

    /** The inner loop of `walkAndToggle`: walks every child of `node`, in order, one level deeper. */
    method WalkChildren(node: DomNode, prefix: string, maxDepth: int, depth: nat)
      modifies this`clicks
      ensures clicks == old(clicks) + ToggleAll(node, 0, prefix, maxDepth, depth)
      decreases node, 0
    {
      var i := 0;
      while i < |node.children|
        invariant 0 <= i <= |node.children|
        invariant old(clicks) + ToggleAll(node, 0, prefix, maxDepth, depth) == clicks + ToggleAll(node, i, prefix, maxDepth, depth)
      {
        ghost var before := clicks;
        assert ToggleAll(node, i, prefix, maxDepth, depth)
            == Toggle(node.children[i], prefix, maxDepth, depth) + ToggleAll(node, i + 1, prefix, maxDepth, depth);
        WalkAndToggle(node.children[i], prefix, maxDepth, depth);
        Regroup(before, Toggle(node.children[i], prefix, maxDepth, depth), ToggleAll(node, i + 1, prefix, maxDepth, depth));
        assert clicks + ToggleAll(node, i + 1, prefix, maxDepth, depth) == before + ToggleAll(node, i, prefix, maxDepth, depth);
        i := i + 1;
      }
    }

    /** `expand(depth)`: expands from the first node of the cached container down to `depth` levels (-1: all). */
    method Expand(depth: int)
      modifies this`clicks
      ensures clicks == old(clicks) + (if lastContainer.Some? && lastContainer.value.nodes != []
                                       then Toggle(lastContainer.value.nodes[0], ExpandLabel, depth, 0) else [])
    {
      if lastContainer.None? {
        return;
      }
      var nodes := lastContainer.value.nodes;
      if nodes != [] {
        WalkAndToggle(nodes[0], ExpandLabel, depth, 0);
      }
    }

    /** `collapseAll`: clicks every Collapse button of the cached container once, last in document order first. */
    method CollapseAll()
      modifies this`clicks
      ensures lastContainer.None? ==> clicks == old(clicks)
      ensures lastContainer.Some? ==>
        clicks == old(clicks) + Reversed(CollapseButtons(Preorder(lastContainer.value.nodes, 0)))
    {
      if lastContainer.None? {
        return;
      }
      var buttons := CollapseButtons(Preorder(lastContainer.value.nodes, 0));
      ClickBackwards(buttons);
    }

    /** The loop of `collapseAll`: clicks `buttons` from the last to the first. */
    method ClickBackwards(buttons: seq<Click>)
      modifies this`clicks
      ensures clicks == old(clicks) + Reversed(buttons)
    {
      var i := |buttons|;
      while i > 0
        invariant 0 <= i <= |buttons|
        invariant clicks == old(clicks) + Reversed(buttons)[..|buttons| - i]
      {
        i := i - 1;
        assert Reversed(buttons)[..|buttons| - i] == Reversed(buttons)[..|buttons| - i - 1] + [buttons[i]];
        clicks := clicks + [buttons[i]];
      }
      assert Reversed(buttons)[..|buttons|] == Reversed(buttons);
    }

    /** The line `walk(node, depth)` appends for `node` itself. */
    static method WalkLine(node: DomNode, depth: nat, outline: string) returns (out: string)
      ensures out == outline + OutlineLine(Entry(node, depth))
    {
      out := outline;
      var text := OutlineLabel(node);
      if text != "" {
        out := out + (Indent(depth) + "- " + text + "\n");
      } else {
        assert outline + "" == outline;
      }
    }

    /** The nested `walk(node, depth)` of `generateOutline`, appending to `outline`. */
    static method Walk(node: DomNode, depth: nat, outline: string) returns (out: string)
      ensures out == outline + NodeOutline(node, depth)
      decreases node
    {
      out := WalkLine(node, depth, outline);
      Regroup(outline, OutlineLine(Entry(node, depth)), ChildrenOutline(node, 0, depth + 1));
      var i := 0;
      while i < |node.children|
        invariant 0 <= i <= |node.children|
        invariant out + ChildrenOutline(node, i, depth + 1) == outline + NodeOutline(node, depth)
      {
        ghost var before := out;
        out := Walk(node.children[i], depth + 1, out);
        Regroup(before, NodeOutline(node.children[i], depth + 1), ChildrenOutline(node, i + 1, depth + 1));
        i := i + 1;
      }
    }

    /** `generateOutline`. */
    method GenerateOutline() returns (outline: string)
      ensures lastContainer.None? ==> outline == NotFoundMessage
      ensures lastContainer.Some? ==> outline == OutlineDocument(lastContainer.value)
    {
      if lastContainer.None? {
        return NotFoundMessage;
      }
      outline := "";
      var nodes := lastContainer.value.nodes;
      if nodes != [] {
        outline := Walk(nodes[0], 0, outline);
        assert "" + NodeOutline(nodes[0], 0) == NodeOutline(nodes[0], 0);
      }
      outline := Trim(outline);
    }

    /**
     * `handleSearch` for the typed `value`: without a container nothing
     * happens; otherwise every highlight in the container is cleared and,
     * for a query of two or more characters, exactly the nodes whose label
     * contains it regardless of case are highlighted.
     */
    method HandleSearch(value: string)
      modifies this`highlighted
      ensures lastContainer.None? ==> highlighted == old(highlighted)
      ensures lastContainer.Some? ==>
        var es := Preorder(lastContainer.value.nodes, 0);
        highlighted == (old(highlighted) - NodeIds(es, |es|)) + (if Utf16Length(Lower(value)) < 2 then {} else MatchIds(es, |es|, Lower(value)))
    {
      var query := Lower(value);
      if lastContainer.None? {
        return;
      }
      var es := Preorder(lastContainer.value.nodes, 0);
      var i := 0;
      while i < |es|
        invariant 0 <= i <= |es|
        invariant highlighted == old(highlighted) - NodeIds(es, i)
      {
        ghost var cleared := highlighted;
        highlighted := highlighted - {es[i].node.id};
        assert highlighted == old(highlighted) - NodeIds(es, i + 1) by {
          assert NodeIds(es, i + 1) == NodeIds(es, i) + {es[i].node.id};
          assert cleared == old(highlighted) - NodeIds(es, i);
        }
        i := i + 1;
      }
      if Utf16Length(query) < 2 {
        return;
      }
      i := 0;
      while i < |es|
        invariant 0 <= i <= |es|
        invariant highlighted == (old(highlighted) - NodeIds(es, |es|)) + MatchIds(es, i, query)
      {
        ghost var marked := highlighted;
        if LabelMatches(es[i].node, query) {
          highlighted := highlighted + {es[i].node.id};
        }
        assert highlighted == (old(highlighted) - NodeIds(es, |es|)) + MatchIds(es, i + 1, query) by {
          assert marked == (old(highlighted) - NodeIds(es, |es|)) + MatchIds(es, i, query);
        }
        i := i + 1;
      }
    }

    /**
     * `injectToolbar`: does nothing when a toolbar is already in the
     * document or no container is available; otherwise appends the
     * toolbar to the container.
     */
    method InjectToolbar(doc: Document)
      modifies this`lastContainer, this`toolbarIn
      ensures old(ToolbarPresent(doc)) ==> lastContainer == old(lastContainer) && toolbarIn == old(toolbarIn)
      ensures !old(ToolbarPresent(doc)) ==>
        var cached := old(lastContainer).Some? && old(lastContainer).value.id in doc.attached;
        var ok := cached || doc.firstMatch.Some?;
        lastContainer == (if cached then old(lastContainer) else if ok then doc.firstMatch else old(lastContainer))
        && toolbarIn == (if ok then Some(lastContainer.value.id) else old(toolbarIn))
      ensures WellFormed(doc) && (old(ToolbarPresent(doc)) || (old(lastContainer).Some? && old(lastContainer).value.id in doc.attached) || doc.firstMatch.Some?)
              ==> ToolbarPresent(doc)
    {
      if ToolbarPresent(doc) {
        return;
      }
      var ok := EnsureContainer(doc);
      if !ok || lastContainer.None? {
        return;
      }
      toolbarIn := Some(lastContainer.value.id);
    }

    /** The theme button: flips `isDarkTheme`. */
    method ToggleTheme()
      modifies this`isDarkTheme
      ensures isDarkTheme == !old(isDarkTheme)
    {
      isDarkTheme := !isDarkTheme;
    }
  }

  /** Expanding the fixture clicks the buttons of Root and Child 1: two clicks. */
  lemma ExpandFixtureClicksTwice()
    ensures Toggle(Fixture(), ExpandLabel, -1, 0) == [Click(Button(10, "Expand node"), 0), Click(Button(20, "Expand node"), 1)]
  {
    var f := Fixture();
    var c1 := f.children[0];
    var g := c1.children[0];
    var c2 := f.children[1];
    assert StartsWith("Expand node", ExpandLabel);
    assert MatchingButtons(f.buttons, ExpandLabel) == [Button(10, "Expand node")];
    assert MatchingButtons(c1.buttons, ExpandLabel) == [Button(20, "Expand node")];
    assert Toggle(g, ExpandLabel, -1, 2) == [];
    assert Toggle(c2, ExpandLabel, -1, 1) == [];
    assert ToggleAll(c1, 0, ExpandLabel, -1, 2) == [];
    assert Toggle(c1, ExpandLabel, -1, 1) == [Click(Button(20, "Expand node"), 1)];
    assert ToggleAll(f, 1, ExpandLabel, -1, 1) == [];
    assert ToggleAll(f, 0, ExpandLabel, -1, 1) == [Click(Button(20, "Expand node"), 1)];
  }

  /** With a depth limit of 1, only the root's button is clicked on the fixture. */
  lemma ExpandFixtureOneLevel()
    ensures Toggle(Fixture(), ExpandLabel, 1, 0) == [Click(Button(10, "Expand node"), 0)]
  {
    var f := Fixture();
    assert StartsWith("Expand node", ExpandLabel);
    assert MatchingButtons(f.buttons, ExpandLabel) == [Button(10, "Expand node")];
    assert Toggle(f.children[0], ExpandLabel, 1, 1) == [];
    assert Toggle(f.children[1], ExpandLabel, 1, 1) == [];
    assert ToggleAll(f, 2, ExpandLabel, 1, 1) == [];
    assert ToggleAll(f, 0, ExpandLabel, 1, 1) == [];
  }

  /** The children are walked again after every matching button: two Expand buttons click a child's button twice. */
  lemma ChildrenWalkedPerButton()
    ensures Toggle(DomNode(1, None, [Button(10, "Expand"), Button(11, "Expand")], [DomNode(2, None, [Button(20, "Expand")], [])]),
                   ExpandLabel, -1, 0)
         == [Click(Button(10, "Expand"), 0), Click(Button(20, "Expand"), 1), Click(Button(11, "Expand"), 0), Click(Button(20, "Expand"), 1)]
  {
    var child := DomNode(2, None, [Button(20, "Expand")], []);
    var n := DomNode(1, None, [Button(10, "Expand"), Button(11, "Expand")], [child]);
    assert StartsWith("Expand", ExpandLabel);
    assert MatchingButtons(n.buttons, ExpandLabel) == n.buttons;
    assert MatchingButtons(child.buttons, ExpandLabel) == child.buttons;
    assert Toggle(child, ExpandLabel, -1, 1) == [Click(Button(20, "Expand"), 1)];
    assert ToggleAll(n, 0, ExpandLabel, -1, 1) == [Click(Button(20, "Expand"), 1)];
    assert n.buttons[1..] == [Button(11, "Expand")];
  }
}
