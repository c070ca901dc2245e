/**
 * `SafeClicker`: finding elements by an ordered list of selectors, polling
 * until a deadline, and clicking only what is visible.
 */
module SafeClicker {
  import opened Wrappers
  import opened Text
  import opened Dom

  /** The pause between two polling passes of every `waitFor*` loop, in ms. */
  const PollInterval: nat := 100

  /** `isElementVisible`: a non-empty box, displayed, not hidden and not fully transparent. */
  predicate IsElementVisible(e: Element) {
    e.style.width > 0.0 && e.style.height > 0.0
    && e.style.display != "none" && e.style.visibility != "hidden" && e.style.opacity != "0"
  }

  /** The element `click` dispatches its event on: the parent of a `<text>` glyph, else the element itself. */
  function ClickTarget(el: Element): (target: Element)
    ensures target == el || Some(target) == el.parent
    ensures (Lower(el.tag) == "text" && el.parent.Some?) <==> target != el
  {
    if Lower(el.tag) == "text" && el.parent.Some? then
      assert el.parent.value < el;
      el.parent.value
    else el
  }

  /** The element has a `text.collapse-symbol` descendant. */
  predicate HasCollapseSymbol(e: Element) {
    exists d :: d in e.descendants && Lower(d.tag) == "text" && "collapse-symbol" in d.classes
  }

  /** `verifyClick`: the target or its parent shows a collapse glyph. */
  predicate VerifyClick(target: Element) {
    HasCollapseSymbol(target) || (target.parent.Some? && HasCollapseSymbol(target.parent.value))
  }

  /** How an element was activated: by `element.click()` or by a dispatched `click` event. */
  datatype Activation = DirectClick(id: nat) | DispatchedClick(id: nat)

  /** What `safeClick` reports, and the activations it caused. */
  datatype ClickResult = ClickResult(success: bool, activations: seq<Activation>)

  /**
   * `safeClick`: an absent or invisible element is not touched; otherwise a
   * direct click, falling back to a dispatched event when that throws.
   */
  function SafeClick(el: Option<Element>): (r: ClickResult)
    ensures r.success <==> el.Some? && IsElementVisible(el.value) && !(el.value.clickThrows && el.value.dispatchThrows)
    ensures !r.success ==> r.activations == []
    ensures r.success ==> |r.activations| == 1 && r.activations[0].id == el.value.id
    ensures r.success && !el.value.clickThrows ==> r.activations == [DirectClick(el.value.id)]
  {
    if el.None? || !IsElementVisible(el.value) then ClickResult(false, [])
    else if !el.value.clickThrows then ClickResult(true, [DirectClick(el.value.id)])
    else if !el.value.dispatchThrows then ClickResult(true, [DispatchedClick(el.value.id)])
    else ClickResult(false, [])
  }

  /** The answer is a match that passes the visibility gate. */
  predicate VisibleMatch(q: QueryResult) {
    q.Match? && IsElementVisible(q.element)
  }

  /** One polling pass: the match of the first selector, in order, whose match is visible. */
  function FirstVisible(results: seq<QueryResult>): Option<Element>
  {
    if results == [] then None
    else if VisibleMatch(results[0]) then Some(results[0].element)
    else FirstVisible(results[1..])
  }

  /** A pass finds `e` exactly when `e` is a visible match and no earlier answer is one. */
  lemma {:induction false} FirstVisibleSpec(results: seq<QueryResult>, e: Element)
    ensures FirstVisible(results) == Some(e) <==>
      exists i :: 0 <= i < |results| && results[i] == Match(e) && IsElementVisible(e)
                  && forall m :: 0 <= m < i ==> !VisibleMatch(results[m])
  {
    if results != [] {
      FirstVisibleSpec(results[1..], e);
      if FirstVisible(results) == Some(e) {
        if VisibleMatch(results[0]) {
          assert results[0] == Match(e);
        } else {
          var i :| 0 <= i < |results[1..]| && results[1..][i] == Match(e) && IsElementVisible(e)
                   && forall m :: 0 <= m < i ==> !VisibleMatch(results[1..][m]);
          assert forall m :: 0 <= m < i + 1 ==> !VisibleMatch(results[m]) by {
            forall m | 0 <= m < i + 1 ensures !VisibleMatch(results[m]) {
              if m > 0 { assert results[m] == results[1..][m - 1]; }
            }
          }
        }
      }
      if exists i :: 0 <= i < |results| && results[i] == Match(e) && IsElementVisible(e)
                     && forall m :: 0 <= m < i ==> !VisibleMatch(results[m]) {
        var i :| 0 <= i < |results| && results[i] == Match(e) && IsElementVisible(e)
                 && forall m :: 0 <= m < i ==> !VisibleMatch(results[m]);
        if i > 0 {
          assert results[1..][i - 1] == Match(e);
          assert forall m :: 0 <= m < i - 1 ==> !VisibleMatch(results[1..][m]) by {
            forall m | 0 <= m < i - 1 ensures !VisibleMatch(results[1..][m]) {
              assert results[1..][m] == results[m + 1];
            }
          }
        }
      }
    }
  }

  /** A selector whose query throws is skipped: the pass goes on with the next selector. */
  lemma {:induction false} ThrowingSelectorSkipped(before: seq<QueryResult>, after: seq<QueryResult>)
    ensures FirstVisible(before + [Throws] + after) == FirstVisible(before + after)
  {
    if before == [] {
      assert before + [Throws] + after == [Throws] + after;
      assert ([Throws] + after)[1..] == after;
      assert before + after == after;
    } else {
      assert (before + [Throws] + after)[0] == before[0];
      assert (before + [Throws] + after)[1..] == before[1..] + [Throws] + after;
      assert (before + after)[0] == before[0];
      assert (before + after)[1..] == before[1..] + after;
      ThrowingSelectorSkipped(before[1..], after);
    }
  }

  /** An invisible match does not end the pass: the later selectors are still tried. */
  lemma {:induction false} InvisibleMatchSkipped(before: seq<QueryResult>, e: Element, after: seq<QueryResult>)
    requires !IsElementVisible(e)
    ensures FirstVisible(before + [Match(e)] + after) == FirstVisible(before + after)
  {
    if before == [] {
      assert before + [Match(e)] + after == [Match(e)] + after;
      assert ([Match(e)] + after)[1..] == after;
      assert before + after == after;
    } else {
      assert (before + [Match(e)] + after)[0] == before[0];
      assert (before + [Match(e)] + after)[1..] == before[1..] + [Match(e)] + after;
      assert (before + after)[0] == before[0];
      assert (before + after)[1..] == before[1..] + after;
      InvisibleMatchSkipped(before[1..], e, after);
    }
  }

  /** What polling pass `k` finds in `scope`. */
  function PassFinds(doc: Doc, scope: Scope, k: nat, selectors: seq<string>): Option<Element> {
    FirstVisible(Results(doc, scope, k, selectors))
  }

  /** The inner `for` over the selectors of one pass, with its early return. */
  method ScanSelectors(doc: Doc, scope: Scope, k: nat, selectors: seq<string>) returns (found: Option<Element>)
    ensures found == PassFinds(doc, scope, k, selectors)
  {
    var i := 0;
    while i < |selectors|
      invariant 0 <= i <= |selectors|
      invariant FirstVisible(Results(doc, scope, k, selectors)) == FirstVisible(Results(doc, scope, k, selectors)[i..])
    {
      var answer := doc.query(k, scope, selectors[i]);
      assert Results(doc, scope, k, selectors)[i..][0] == answer;
      assert Results(doc, scope, k, selectors)[i..][1..] == Results(doc, scope, k, selectors)[i + 1..];
      match answer {
        case Throws =>
        case NoMatch =>
        case Match(el) =>
          if IsElementVisible(el) {
            return Some(el);
          }
      }
      i := i + 1;
    }
    found := None;
  }

  /**
   * The deadline loop shared by `waitForElement` and `waitForElementInContext`:
   * passes run while the clock is before `start + timeout`; the first pass
   * that finds a visible match returns it; otherwise `null` once the
   * deadline is reached.
   */
  method WaitForElementIn(doc: Doc, clock: Clock, scope: Scope, selectors: seq<string>, timeout: int)
    returns (found: Option<Element>)
    ensures found.Some? ==> exists k: nat :: Reading(clock, PollInterval, k) < clock.start + timeout
                                        && PassFinds(doc, scope, k, selectors) == found
                                        && forall j :: 0 <= j < k ==> PassFinds(doc, scope, j, selectors).None?
    ensures found.None? ==> forall k: nat :: Reading(clock, PollInterval, k) < clock.start + timeout
                                        ==> PassFinds(doc, scope, k, selectors).None?
    ensures selectors == [] ==> found.None?
  {
    var endTime := clock.start + timeout;
    var k := 0;
    while Reading(clock, PollInterval, k) < endTime
      invariant forall j :: 0 <= j < k ==> PassFinds(doc, scope, j, selectors).None?
      decreases endTime - Reading(clock, PollInterval, k)
    {
      var hit := ScanSelectors(doc, scope, k, selectors);
      if hit.Some? {
        return hit;
      }
      k := k + 1;
    }
    found := None;
    forall j: nat | Reading(clock, PollInterval, j) < endTime
      ensures PassFinds(doc, scope, j, selectors).None?
    {
      if j >= k {
        ReadingGrows(clock, PollInterval, k, j);
      }
    }
  }

  /** `waitForElement(selectors, timeout = 10000)`: polls the whole document. */
  method WaitForElement(doc: Doc, clock: Clock, selectors: seq<string>, timeout: int := 10000)
    returns (found: Option<Element>)
    ensures found.Some? ==> exists k: nat :: Reading(clock, PollInterval, k) < clock.start + timeout
                                        && PassFinds(doc, WholeDocument, k, selectors) == found
                                        && forall j :: 0 <= j < k ==> PassFinds(doc, WholeDocument, j, selectors).None?
    ensures found.None? ==> forall k: nat :: Reading(clock, PollInterval, k) < clock.start + timeout
                                        ==> PassFinds(doc, WholeDocument, k, selectors).None?
    ensures selectors == [] ==> found.None?
  {
    found := WaitForElementIn(doc, clock, WholeDocument, selectors, timeout);
  }

  /** `waitForElementInContext(selectors, context, timeout = 5000)`: polls inside `context`. */
  method WaitForElementInContext(doc: Doc, clock: Clock, selectors: seq<string>, context: Element, timeout: int := 5000)
    returns (found: Option<Element>)
    ensures found.Some? ==> exists k: nat :: Reading(clock, PollInterval, k) < clock.start + timeout
                                        && PassFinds(doc, Within(context), k, selectors) == found
                                        && forall j :: 0 <= j < k ==> PassFinds(doc, Within(context), j, selectors).None?
    ensures found.None? ==> forall k: nat :: Reading(clock, PollInterval, k) < clock.start + timeout
                                        ==> PassFinds(doc, Within(context), k, selectors).None?
    ensures selectors == [] ==> found.None?
  {
    found := WaitForElementIn(doc, clock, Within(context), selectors, timeout);
  }

  /** The answer of `waitForAnyElement`: the element and the index of the group that found it. */
  datatype GroupMatch = GroupMatch(element: Element, group: nat)

  /** One pass of `waitForAnyElement` from group `g` on: the first group whose selectors find a visible match. */
  function GroupPass(doc: Doc, k: nat, groups: seq<seq<string>>, g: nat): (r: Option<GroupMatch>)
    requires g <= |groups|
    ensures r.Some? ==> g <= r.value.group < |groups|
    decreases |groups| - g
  {
    if g == |groups| then None
    else match PassFinds(doc, WholeDocument, k, groups[g])
      case Some(e) => Some(GroupMatch(e, g))
      case None => GroupPass(doc, k, groups, g + 1)
  }

  /** A group pass reports the first group, in order, with a visible match, and that match. */
  lemma {:induction false} GroupPassSpec(doc: Doc, k: nat, groups: seq<seq<string>>, g: nat)
    requires g <= |groups|
    ensures var r := GroupPass(doc, k, groups, g);
      (r.Some? ==> PassFinds(doc, WholeDocument, k, groups[r.value.group]) == Some(r.value.element)
                   && forall h :: g <= h < r.value.group ==> PassFinds(doc, WholeDocument, k, groups[h]).None?)
      && (r.None? ==> forall h :: g <= h < |groups| ==> PassFinds(doc, WholeDocument, k, groups[h]).None?)
    decreases |groups| - g
  {
    if g < |groups| && PassFinds(doc, WholeDocument, k, groups[g]).None? {
      GroupPassSpec(doc, k, groups, g + 1);
    }
  }

  /** `waitForAnyElement(selectorGroups, timeout = 10000)`. */
  method WaitForAnyElement(doc: Doc, clock: Clock, selectorGroups: seq<seq<string>>, timeout: int := 10000)
    returns (found: Option<GroupMatch>)
    ensures found.Some? ==> found.value.group < |selectorGroups|
    ensures found.Some? ==> exists k: nat :: Reading(clock, PollInterval, k) < clock.start + timeout
                                        && GroupPass(doc, k, selectorGroups, 0) == found
                                        && forall j :: 0 <= j < k ==> GroupPass(doc, j, selectorGroups, 0).None?
    ensures found.None? ==> forall k: nat :: Reading(clock, PollInterval, k) < clock.start + timeout
                                        ==> GroupPass(doc, k, selectorGroups, 0).None?
  {
    var endTime := clock.start + timeout;
    var k := 0;
    while Reading(clock, PollInterval, k) < endTime
      invariant forall j :: 0 <= j < k ==> GroupPass(doc, j, selectorGroups, 0).None?
      decreases endTime - Reading(clock, PollInterval, k)
    {
      var groupIndex := 0;
      while groupIndex < |selectorGroups|
        invariant 0 <= groupIndex <= |selectorGroups|
        invariant GroupPass(doc, k, selectorGroups, 0) == GroupPass(doc, k, selectorGroups, groupIndex)
      {
        var hit := ScanSelectors(doc, WholeDocument, k, selectorGroups[groupIndex]);
        if hit.Some? {
          return Some(GroupMatch(hit.value, groupIndex));
        }
        groupIndex := groupIndex + 1;
      }
      k := k + 1;
    }
    found := None;
    forall j: nat | Reading(clock, PollInterval, j) < endTime
      ensures GroupPass(doc, j, selectorGroups, 0).None?
    {
      if j >= k {
        ReadingGrows(clock, PollInterval, k, j);
      }
    }
  }
}
