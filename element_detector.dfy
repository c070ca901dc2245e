/**
 * The element detector: waits for the mind-map container by trying a fixed
 * list of container selectors on every polling pass.
 */
module ElementDetector {
  import opened Wrappers
  import opened Dom

  /** The container selectors, in priority order. */
  const ContainerSelectors: seq<string> := [
    "div[class^=\"MindMapViewer\"]",
    "[data-test-id=\"mind-map-container\"]",
    "#mind-map-container",
    ".mindmap-root",
    "main .node-tree",
    "div[data-testid=\"mind-map-root\"]",
    "div.mindmap",
    "section.mindmap",
    "div[class*=\"mindmap\"]",
    "div[class*=\"NodeTree\"]",
    "mindmap",
    "mindmap svg"
  ]

  /** The list holds twelve selectors, the `MindMapViewer` class prefix first. */
  lemma SelectorList()
    ensures |ContainerSelectors| == 12 && ContainerSelectors[0] == "div[class^=\"MindMapViewer\"]"
  {
  }

  /** The single warning logged when the container never shows up. */
  const NotFoundWarning: string := "[elementDetector] Mind map container not found after 10 s."

  /** One polling pass: the match of the first selector, in order, that matches anything; no visibility gate. */
  function FirstMatch(results: seq<QueryResult>): Option<Element> {
    if results == [] then None
    else if results[0].Match? then Some(results[0].element)
    else FirstMatch(results[1..])
  }

  /** A pass finds `e` exactly when `e` is a match and no earlier selector matched. */
  lemma {:induction false} FirstMatchSpec(results: seq<QueryResult>, e: Element)
    ensures FirstMatch(results) == Some(e) <==>
      exists i :: 0 <= i < |results| && results[i] == Match(e) && forall m :: 0 <= m < i ==> !results[m].Match?
  {
    if results != [] {
      FirstMatchSpec(results[1..], e);
      if FirstMatch(results) == Some(e) && !results[0].Match? {
        var i :| 0 <= i < |results[1..]| && results[1..][i] == Match(e)
                 && forall m :: 0 <= m < i ==> !results[1..][m].Match?;
        assert forall m :: 0 <= m < i + 1 ==> !results[m].Match? by {
          forall m | 0 <= m < i + 1 ensures !results[m].Match? {
            if m > 0 { assert results[m] == results[1..][m - 1]; }
          }
        }
      }
      if exists i :: 0 <= i < |results| && results[i] == Match(e) && forall m :: 0 <= m < i ==> !results[m].Match? {
        var i :| 0 <= i < |results| && results[i] == Match(e) && forall m :: 0 <= m < i ==> !results[m].Match?;
        if i > 0 {
          assert results[1..][i - 1] == Match(e);
          assert forall m :: 0 <= m < i - 1 ==> !results[1..][m].Match? by {
            forall m | 0 <= m < i - 1 ensures !results[1..][m].Match? {
              assert results[1..][m] == results[m + 1];
            }
          }
        }
      }
    }
  }

  /** A selector that throws is ignored and the pass continues. */
  lemma {:induction false} ThrowingSelectorIgnored(before: seq<QueryResult>, after: seq<QueryResult>)
    ensures FirstMatch(before + [Throws] + after) == FirstMatch(before + after)
  {
    if before == [] {
      assert before + [Throws] + after == [Throws] + after;
      assert ([Throws] + after)[1..] == after;
      assert before + after == after;
    } else {
      assert (before + [Throws] + after)[0] == before[0];
      assert (before + [Throws] + after)[1..] == before[1..] + [Throws] + after;
      assert (before + after)[0] == before[0];
      assert (before + after)[1..] == before[1..] + after;
      ThrowingSelectorIgnored(before[1..], after);
    }
  }

  /** What polling pass `k` finds in the document. */
  function ContainerPass(doc: Doc, k: nat): Option<Element> {
    FirstMatch(Results(doc, WholeDocument, k, ContainerSelectors))
  }

  /**
   * `waitForContainer(timeoutMs = 10000, intervalMs = 200)`: passes run while
   * less than `timeoutMs` has elapsed; the first match is returned at once,
   * before any wait; on timeout `null` and exactly one warning. `waits`
   * counts the interval waits that were performed.
   */
  method WaitForContainer(doc: Doc, clock: Clock, timeoutMs: int := 10000, intervalMs: nat := 200)
    returns (container: Option<Element>, warnings: seq<string>, waits: nat)
    ensures container.Some? ==> Reading(clock, intervalMs, waits) - clock.start < timeoutMs
                                && ContainerPass(doc, waits) == container
                                && forall j :: 0 <= j < waits ==> ContainerPass(doc, j).None?
    ensures container.None? ==> forall k: nat :: Reading(clock, intervalMs, k) - clock.start < timeoutMs
                                                 ==> ContainerPass(doc, k).None?
    ensures warnings == if container.None? then [NotFoundWarning] else []
    ensures 0 < timeoutMs && ContainerPass(doc, 0).Some? ==> container == ContainerPass(doc, 0) && waits == 0
  {
    var start := clock.start;
    waits := 0;
    while Reading(clock, intervalMs, waits) - start < timeoutMs
      invariant forall j :: 0 <= j < waits ==> ContainerPass(doc, j).None?
      decreases timeoutMs - (Reading(clock, intervalMs, waits) - start)
    {
      var i := 0;
      while i < |ContainerSelectors|
        invariant 0 <= i <= |ContainerSelectors|
        invariant ContainerPass(doc, waits) == FirstMatch(Results(doc, WholeDocument, waits, ContainerSelectors)[i..])
      {
        var answer := doc.query(waits, WholeDocument, ContainerSelectors[i]);
        ghost var rest := Results(doc, WholeDocument, waits, ContainerSelectors)[i..];
        assert rest[0] == answer && rest[1..] == Results(doc, WholeDocument, waits, ContainerSelectors)[i + 1..];
        if answer.Match? {
          return Some(answer.element), [], waits;
        }
        i := i + 1;
      }
      waits := waits + 1;
    }
    container := None;
    warnings := [NotFoundWarning];
    forall k: nat | Reading(clock, intervalMs, k) - start < timeoutMs
      ensures ContainerPass(doc, k).None?
    {
      if k >= waits {
        ReadingGrows(clock, intervalMs, waits, k);
      }
    }
  }
}
