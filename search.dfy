/**
 * The side-panel search: an index set up once, a base list (every indexed
 * item for an empty query, the Fuse ranking otherwise), then a chain of
 * optional filters on date, type, content length and tags.
 */
module Search {
  import opened Wrappers
  import opened Seqs
  import opened Text

  datatype ItemType = Note | Source | MindMapItem

  /** A searchable note, source or mind map; `createdAt` is in milliseconds since the epoch. */
  datatype SearchableItem = SearchableItem(
    id: string,
    itemType: ItemType,
    title: string,
    content: string,
    tags: seq<string>,
    createdAt: int)

  /** The `dateRange` filter: `'all'` or one of the three presets. */
  datatype DateRange = AllDates | Last24h | Last7d | Last30d

  /** The `sourceType` filter: `'all'` or one item type. */
  datatype TypeFilter = AllTypes | OnlyType(itemType: ItemType)

  /** `AdvancedFilters`: every field may be absent. */
  datatype Filters = Filters(
    dateRange: Option<DateRange>,
    sourceType: Option<TypeFilter>,
    contentLength: Option<int>,
    tags: Option<seq<string>>)

  /** What `search` returns per item: the object `{item}`. */
  datatype SearchResult = SearchResult(item: SearchableItem)

  /** One result of `fuse.search`: the item and its index in the indexed list. */
  datatype FuseResult = FuseResult(item: SearchableItem, refIndex: nat)

  /** A search result with the highlighted copies of title and content. */
  datatype HighlightedItem = HighlightedItem(
    id: string,
    itemType: ItemType,
    title: string,
    content: string,
    tags: seq<string>,
    createdAt: int,
    highlightedTitle: string,
    highlightedContent: string)

  const Day: int := 24 * 60 * 60 * 1000

  // ------------------------------------------------------------- filters

  /** The date filter is applied when a range other than `'all'` is given. */
  predicate DateActive(f: Filters) {
    f.dateRange.Some? && f.dateRange.value != AllDates
  }

  /** The earliest `createdAt` a preset keeps, `now` being `Date.now()`. */
  function MinDate(range: DateRange, now: int): int {
    match range
    case Last24h => now - Day
    case Last7d => now - 7 * Day
    case Last30d => now - 30 * Day
    case AllDates => 0
  }

  predicate PassesDate(item: SearchableItem, f: Filters, now: int) {
    DateActive(f) ==> item.createdAt >= MinDate(f.dateRange.value, now)
  }

  /** The type filter is applied when a type other than `'all'` is given. */
  predicate TypeActive(f: Filters) {
    f.sourceType.Some? && f.sourceType.value.OnlyType?
  }

  predicate PassesType(item: SearchableItem, f: Filters) {
    TypeActive(f) ==> item.itemType == f.sourceType.value.itemType
  }

  /** The length filter is applied for a positive `contentLength`; 0 is falsy. */
  predicate LengthActive(f: Filters) {
    f.contentLength.Some? && f.contentLength.value > 0
  }

  /** `item.content.length >= contentLength`, the length counted in UTF-16 code units. */
  predicate PassesLength(item: SearchableItem, f: Filters) {
    LengthActive(f) ==> Utf16Length(item.content) >= f.contentLength.value
  }

  /** The tag filter is applied for a non-empty tag list. */
  predicate TagsActive(f: Filters) {
    f.tags.Some? && |f.tags.value| > 0
  }

  /** `filters.tags.every(tag => item.tags.includes(tag))`. */
  predicate HasAllTags(item: SearchableItem, tags: seq<string>) {
    forall i :: 0 <= i < |tags| ==> tags[i] in item.tags
  }

  predicate PassesTags(item: SearchableItem, f: Filters) {
    TagsActive(f) ==> HasAllTags(item, f.tags.value)
  }

  /** An item passes the filters when it passes every active one. */
  predicate Matches(item: SearchableItem, f: Filters, now: int) {
    PassesDate(item, f, now) && PassesType(item, f) && PassesLength(item, f) && PassesTags(item, f)
  }

  /** The items of `items` that pass every active filter, in their order. */
  function KeepMatching(items: seq<SearchableItem>, f: Filters, now: int): seq<SearchableItem> {
    Filter(items, (x: SearchableItem) => Matches(x, f, now))
  }

  /** `results.map(item => ({item}))`. */
  function Wrap(items: seq<SearchableItem>): (r: seq<SearchResult>)
    ensures |r| == |items|
    ensures forall i :: 0 <= i < |items| ==> r[i].item == items[i]
  {
    seq(|items|, i requires 0 <= i < |items| => SearchResult(items[i]))
  }

  /** The date presets keep items from the last 86 400 000, 604 800 000 or 2 592 000 000 ms. */
  lemma DatePresets(item: SearchableItem, f: Filters, now: int)
    ensures f.dateRange == Some(Last24h) ==> (PassesDate(item, f, now) <==> item.createdAt >= now - 86400000)
    ensures f.dateRange == Some(Last7d) ==> (PassesDate(item, f, now) <==> item.createdAt >= now - 604800000)
    ensures f.dateRange == Some(Last30d) ==> (PassesDate(item, f, now) <==> item.createdAt >= now - 2592000000)
    ensures f.dateRange.None? || f.dateRange == Some(AllDates) ==> PassesDate(item, f, now)
  {
  }

  /** A single character outside the Basic Multilingual Plane already meets a minimum length of 2. */
  lemma AstralContentCountsTwice(item: SearchableItem, f: Filters)
    requires item.content == "\U{1F600}" && f.contentLength == Some(2)
    ensures |item.content| == 1 && PassesLength(item, f)
  {
  }

  /** The items kept are exactly those of the base list that pass every active filter. */
  lemma KeepMatchingSpec(items: seq<SearchableItem>, f: Filters, now: int, x: SearchableItem)
    ensures x in KeepMatching(items, f, now) <==> x in items && Matches(x, f, now)
  {
    FilterSpec(items, (y: SearchableItem) => Matches(y, f, now), x);
  }

  /** The kept items are a subsequence of the base list: nothing is added or reordered. */
  lemma KeepMatchingIsSubsequence(items: seq<SearchableItem>, f: Filters, now: int)
    ensures IsSubsequence(KeepMatching(items, f, now), items)
    ensures |KeepMatching(items, f, now)| <= |items|
  {
    FilterIsSubsequence(items, (y: SearchableItem) => Matches(y, f, now));
  }

  /** With no active filter the whole base list is kept. */
  lemma {:induction false} NoFilterKeepsAll(items: seq<SearchableItem>, f: Filters, now: int)
    requires !DateActive(f) && !TypeActive(f) && !LengthActive(f) && !TagsActive(f)
    ensures KeepMatching(items, f, now) == items
  {
    if items != [] {
      NoFilterKeepsAll(items[1..], f, now);
      assert items == [items[0]] + items[1..];
    }
  }

  /** Asking for one more tag never lets more items through. */
  lemma ExtraTagNarrows(items: seq<SearchableItem>, f: Filters, now: int, tag: string, x: SearchableItem)
    requires f.tags.Some?
    ensures var g := f.(tags := Some(f.tags.value + [tag]));
      x in KeepMatching(items, g, now) ==> x in KeepMatching(items, f, now) && tag in x.tags
  {
    var g := f.(tags := Some(f.tags.value + [tag]));
    KeepMatchingSpec(items, g, now, x);
    KeepMatchingSpec(items, f, now, x);
    if x in KeepMatching(items, g, now) {
      assert f.tags.value + [tag] == g.tags.value;
      assert g.tags.value[|f.tags.value|] == tag;
      assert forall i :: 0 <= i < |f.tags.value| ==> f.tags.value[i] == g.tags.value[i];
    }
  }

  // ---------------------------------------------------------- the index

  /** The module state of the search: `searchableItems`, and the Fuse index once built. */
  class SearchIndex {
    var searchableItems: seq<SearchableItem>
    /** The items the Fuse index was built over; None before `initSearch`. */
    var fuse: Option<seq<SearchableItem>>

    constructor ()
      ensures searchableItems == [] && fuse.None?
    {
      searchableItems := [];
      fuse := None;
    }

    /** `initSearch(items)`: both the item list and the index are replaced by `items`. */
    method InitSearch(items: seq<SearchableItem>)
      modifies this
      ensures searchableItems == items && fuse == Some(items)
    {
      searchableItems := items;
      fuse := Some(items);
    }

    /**
     * `search(query, filters)`, with `now` the reading of `Date.now()` and
     * `fuseSearch(indexed, query)` the items Fuse ranks for the query.
     */
    method Search(query: string, filters: Filters, now: int,
                  fuseSearch: (seq<SearchableItem>, string) -> seq<SearchableItem>)
      returns (results: seq<SearchResult>)
      ensures query != "" && fuse.None? ==> results == []
      ensures query != "" && fuse.Some? ==> results == Wrap(KeepMatching(fuseSearch(fuse.value, query), filters, now))
      ensures query == "" ==> results == Wrap(KeepMatching(searchableItems, filters, now))
    {
      var items: seq<SearchableItem>;
      if query != "" {
        if fuse.None? {
          return [];
        }
        items := fuseSearch(fuse.value, query);
      } else {
        items := searchableItems;
      }
      ghost var base := items;
      items := DateStage(items, filters, now);
      items := TypeStage(items, filters);
      items := LengthStage(items, filters);
      items := TagStage(items, filters);
      assert items == KeepMatching(base, filters, now) by {
        FilterTwice(base, (x: SearchableItem) => PassesDate(x, filters, now), (x: SearchableItem) => PassesType(x, filters),
                    (x: SearchableItem) => PassesDate(x, filters, now) && PassesType(x, filters));
        FilterTwice(base, (x: SearchableItem) => PassesDate(x, filters, now) && PassesType(x, filters),
                    (x: SearchableItem) => PassesLength(x, filters),
                    (x: SearchableItem) => PassesDate(x, filters, now) && PassesType(x, filters) && PassesLength(x, filters));
        FilterTwice(base, (x: SearchableItem) => PassesDate(x, filters, now) && PassesType(x, filters) && PassesLength(x, filters),
                    (x: SearchableItem) => PassesTags(x, filters), (x: SearchableItem) => Matches(x, filters, now));
      }
      results := Wrap(items);
    }
  }

  /** The date step of the chain: applied only for a range other than `'all'`. */
  method DateStage(items: seq<SearchableItem>, filters: Filters, now: int) returns (results: seq<SearchableItem>)
    ensures results == Filter(items, (x: SearchableItem) => PassesDate(x, filters, now))
  {
    results := items;
    if filters.dateRange.Some? && filters.dateRange.value != AllDates {
      var minDate := MinDate(filters.dateRange.value, now);
      results := Filter(results, (item: SearchableItem) => item.createdAt >= minDate);
      FilterSame(items, (item: SearchableItem) => item.createdAt >= minDate, (x: SearchableItem) => PassesDate(x, filters, now));
    } else {
      FilterKeepsAll(items, (x: SearchableItem) => PassesDate(x, filters, now));
    }
  }

  /** The type step: applied only for a type other than `'all'`. */
  method TypeStage(items: seq<SearchableItem>, filters: Filters) returns (results: seq<SearchableItem>)
    ensures results == Filter(items, (x: SearchableItem) => PassesType(x, filters))
  {
    results := items;
    if filters.sourceType.Some? && filters.sourceType.value != AllTypes {
      var wanted := filters.sourceType.value.itemType;
      results := Filter(results, (item: SearchableItem) => item.itemType == wanted);
      FilterSame(items, (item: SearchableItem) => item.itemType == wanted, (x: SearchableItem) => PassesType(x, filters));
    } else {
      FilterKeepsAll(items, (x: SearchableItem) => PassesType(x, filters));
    }
  }

  /** The content-length step: applied only for a positive minimum. */
  method LengthStage(items: seq<SearchableItem>, filters: Filters) returns (results: seq<SearchableItem>)
    ensures results == Filter(items, (x: SearchableItem) => PassesLength(x, filters))
  {
    results := items;
    if filters.contentLength.Some? && filters.contentLength.value > 0 {
      var minLength := filters.contentLength.value;
      results := Filter(results, (item: SearchableItem) => Utf16Length(item.content) >= minLength);
      FilterSame(items, (item: SearchableItem) => Utf16Length(item.content) >= minLength, (x: SearchableItem) => PassesLength(x, filters));
    } else {
      FilterKeepsAll(items, (x: SearchableItem) => PassesLength(x, filters));
    }
  }

  /** The tag step: applied only for a non-empty tag list. */
  method TagStage(items: seq<SearchableItem>, filters: Filters) returns (results: seq<SearchableItem>)
    ensures results == Filter(items, (x: SearchableItem) => PassesTags(x, filters))
  {
    results := items;
    if filters.tags.Some? && |filters.tags.value| > 0 {
      var tags := filters.tags.value;
      results := Filter(results, (item: SearchableItem) => HasAllTags(item, tags));
      FilterSame(items, (item: SearchableItem) => HasAllTags(item, tags), (x: SearchableItem) => PassesTags(x, filters));
    } else {
      FilterKeepsAll(items, (x: SearchableItem) => PassesTags(x, filters));
    }
  }

  // ---------------------------------------------------------- highlight

  /** The highlighted copy of one Fuse result: the item's fields, title and content copied unchanged. */
  function Highlight(r: FuseResult): HighlightedItem {
    var it := r.item;
    HighlightedItem(it.id, it.itemType, it.title, it.content, it.tags, it.createdAt, it.title, it.content)
  }

  /** The item a highlighted copy was made from. */
  function Unhighlight(h: HighlightedItem): SearchableItem {
    SearchableItem(h.id, h.itemType, h.title, h.content, h.tags, h.createdAt)
  }

  /**
   * `highlightMatches(results)`: one copy per result, in order; each keeps
   * every field of its item, and the highlighted title and content equal
   * the originals.
   */
  function HighlightMatches(results: seq<FuseResult>): (r: seq<HighlightedItem>)
    ensures |r| == |results|
    ensures forall i :: 0 <= i < |results| ==>
      Unhighlight(r[i]) == results[i].item
      && r[i].highlightedTitle == results[i].item.title && r[i].highlightedContent == results[i].item.content
  {
    seq(|results|, i requires 0 <= i < |results| => Highlight(results[i]))
  }
}
