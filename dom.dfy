/**
 * The parts of the browser the content scripts observe, as values:
 * elements with the attributes selectors and visibility checks look at,
 * a document that answers selector queries, and the clock.
 */
module Dom {
  import opened Wrappers
  import opened Text

  /** The rendered box and computed style of an element (`getBoundingClientRect`, `getComputedStyle`). */
  datatype Style = Style(width: real, height: real, display: string, visibility: string, opacity: string)

  /** What the selectors used on descendants look at: the tag name and the class list. */
  datatype Shape = Shape(tag: string, classes: seq<string>)

  /**
   * A DOM element. `tag` is `tagName` as the browser reports it (upper case
   * for HTML elements, as written for SVG ones). `clickThrows` and
   * `dispatchThrows` say whether `element.click()` and
   * `element.dispatchEvent(...)` throw on it. `descendants` lists the
   * shapes of the elements below it, `parent` is `parentElement`.
   */
  datatype Element = Element(
    id: nat,
    tag: string,
    classes: seq<string>,
    attributes: map<string, string>,
    style: Style,
    clickThrows: bool,
    dispatchThrows: bool,
    descendants: seq<Shape>,
    parent: Option<Element>)

  /** Some class of the list contains `fragment` (the selector `[class*="fragment"]`). */
  predicate ClassContains(classes: seq<string>, fragment: string) {
    exists c :: c in classes && Contains(c, fragment)
  }

  /** Some class of the list is exactly `name` (the selector `.name`). */
  predicate HasClass(classes: seq<string>, name: string) {
    name in classes
  }

  /** The element followed by its ancestors, nearest first. */
  function SelfAndAncestors(e: Element): (r: seq<Element>)
    ensures r != [] && r[0] == e
    decreases e
  {
    [e] + (if e.parent.Some? then SelfAndAncestors(e.parent.value) else [])
  }

  /** The outcome of `scope.querySelector(selector)`: it throws, finds nothing or finds an element. */
  datatype QueryResult = Throws | NoMatch | Match(element: Element)

  /** Where a query runs: the whole `document`, or inside a context element. */
  datatype Scope = WholeDocument | Within(context: Element)

  /**
   * A document whose contents may change over time: `query(k, scope, s)`
   * is what `querySelector(s)` answers in `scope` during the `k`-th
   * polling pass of a waiting loop.
   */
  datatype Doc = Doc(query: (nat, Scope, string) -> QueryResult)

  /** The answers of one polling pass to each selector, in list order. */
  function Results(doc: Doc, scope: Scope, k: nat, selectors: seq<string>): (r: seq<QueryResult>)
    ensures |r| == |selectors|
    ensures forall i :: 0 <= i < |selectors| ==> r[i] == doc.query(k, scope, selectors[i])
  {
    if selectors == [] then [] else [doc.query(k, scope, selectors[0])] + Results(doc, scope, k, selectors[1..])
  }

  /**
   * The clock of a waiting loop. `start` is the reading of `Date.now()` when
   * the loop is entered; `late(k)` is how much later than its delay the
   * timer after the `k`-th pass fires.
   */
  datatype Clock = Clock(start: int, late: nat -> nat)

  /** The least time a polling wait of `interval` ms takes: a timer never fires early, and time moves on. */
  function WaitAtLeast(interval: nat): (d: nat)
    ensures d >= 1 && d >= interval
  {
    if interval == 0 then 1 else interval
  }

  /** The reading of `Date.now()` at the head of pass `k` of a loop that waits `interval` ms between passes. */
  function Reading(clock: Clock, interval: nat, k: nat): int
    decreases k
  {
    if k == 0 then clock.start else Reading(clock, interval, k - 1) + WaitAtLeast(interval) + clock.late(k - 1)
  }

  /** Readings never go back, and every pass adds at least the polling interval. */
  lemma {:induction false} ReadingGrows(clock: Clock, interval: nat, j: nat, k: nat)
    requires j <= k
    ensures Reading(clock, interval, j) + (k - j) * WaitAtLeast(interval) <= Reading(clock, interval, k)
    decreases k - j
  {
    if j < k {
      ReadingGrows(clock, interval, j, k - 1);
    }
  }
}
