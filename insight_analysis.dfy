/**
 * The client-side insights: keywords counted over the node texts, the main
 * branches, suggested connections between nodes sharing a keyword, missing
 * topics, a summary line, and the analyser that caches its result under a
 * hash of the texts.
 */
module InsightAnalysis {
  import opened Wrappers
  import opened Text
  import opened Seqs
  import opened InsightHierarchy

  // ----------------------------------------------------------- keywords

  /** A character of `\w`: an ASCII letter, a digit or `_`. */
  predicate IsWordChar(c: char) {
    'a' <= c <= 'z' || 'A' <= c <= 'Z' || '0' <= c <= '9' || c == '_'
  }

  /** A character a lower-cased, punctuation-free word can hold. */
  predicate IsLowerWordChar(c: char) {
    'a' <= c <= 'z' || '0' <= c <= '9' || c == '_'
  }

  /** `.replace(/[^\w\s]/g, '')`: keeps word characters and white space. */
  function StripPunctuation(s: string): (r: string)
    ensures forall i :: 0 <= i < |r| ==> IsWordChar(r[i]) || IsWhitespace(r[i])
    ensures forall c :: c in r ==> c in s
  {
    FilterSpecAll(s, (c: char) => IsWordChar(c) || IsWhitespace(c));
    Filter(s, (c: char) => IsWordChar(c) || IsWhitespace(c))
  }

  lemma FilterSpecAll<T>(s: seq<T>, p: T -> bool)
    ensures forall x :: x in Filter(s, p) <==> x in s && p(x)
  {
    forall x ensures x in Filter(s, p) <==> x in s && p(x) {
      FilterSpec(s, p, x);
    }
  }

  /** The stop words `extractKeywords` ignores. */
  const StopWords: set<string> := {
    "the", "a", "an", "and", "or", "but", "in", "on", "at", "to", "for", "of", "with", "by",
    "is", "are", "was", "were", "be", "been", "being", "have", "has", "had", "do", "does", "did",
    "will", "would", "should", "could", "can", "may", "might", "must", "this", "that", "these", "those"
  }

  /** A word that counts: longer than two characters and not a stop word. */
  predicate IsKeyword(w: string) {
    |w| > 2 && w !in StopWords
  }

  /** The counted words of one text: lower-cased, stripped of punctuation, split at white space, filtered. */
  function WordsOf(text: string): seq<string> {
    Filter(SplitWhitespace(StripPunctuation(Lower(text))), IsKeyword)
  }

  /** The counted words of all texts, in order. */
  function AllWords(texts: seq<string>): seq<string> {
    if texts == [] then [] else AllWords(texts[..|texts| - 1]) + WordsOf(texts[|texts| - 1])
  }

  /** Every counted word is a lower-case, punctuation-free keyword. */
  lemma WordsOfShape(text: string, w: string)
    requires w in WordsOf(text)
    ensures IsKeyword(w) && forall c :: c in w ==> IsLowerWordChar(c)
  {
    var pieces := SplitWhitespace(StripPunctuation(Lower(text)));
    FilterSpec(pieces, IsKeyword, w);
    SplitPiecesHaveNoWhitespace(StripPunctuation(Lower(text)), "");
    forall c | c in w ensures IsLowerWordChar(c) {
      SplitPiecesComeFromInput(StripPunctuation(Lower(text)), "", w, c);
      var k :| 0 <= k < |StripPunctuation(Lower(text))| && StripPunctuation(Lower(text))[k] == c;
      var m :| 0 <= m < |Lower(text)| && Lower(text)[m] == c;
      var i :| 0 <= i < |w| && w[i] == c;
    }
  }

  lemma {:induction false} AllWordsShape(texts: seq<string>, w: string)
    requires w in AllWords(texts)
    ensures IsKeyword(w) && forall c :: c in w ==> IsLowerWordChar(c)
  {
    var init := texts[..|texts| - 1];
    if w in AllWords(init) {
      AllWordsShape(init, w);
    } else {
      WordsOfShape(texts[|texts| - 1], w);
    }
  }

  /** An entry of `wordCounts`. */
  datatype WordCount = WordCount(word: string, count: nat)

  /** `Array.from(wordCounts.entries())`: each word once, in the order first seen, with its count. */
  function Entries(words: seq<string>): (r: seq<WordCount>)
    ensures |r| == |Dedup(words)| && forall i :: 0 <= i < |r| ==> r[i].word == Dedup(words)[i]
  {
    var d := Dedup(words);
    seq(|d|, i requires 0 <= i < |d| => WordCount(d[i], Occurrences(words, d[i])))
  }

  /** `(a, b) => b[1] - a[1]` as a sort key. */
  function ByCount(e: WordCount): int {
    -(e.count as int)
  }

  /** The ten most frequent words, ties in the order first seen; fewer when there are fewer. */
  function TopWords(words: seq<string>): (r: seq<string>)
    ensures |r| <= 10
  {
    var top := Take(SortBy(Entries(words), ByCount), 10);
    seq(|top|, i requires 0 <= i < |top| => top[i].word)
  }

  /** `extractKeywords(texts)`. */
  function Keywords(texts: seq<string>): seq<string> {
    TopWords(AllWords(texts))
  }

  /** `wordCounts.set(word, (wordCounts.get(word) || 0) + 1)` on a map that remembers insertion order. */
  method CountWord(order: seq<string>, counts: map<string, nat>, word: string, ghost seen: seq<string>)
    returns (order': seq<string>, counts': map<string, nat>)
    requires Counted(order, counts, seen)
    ensures Counted(order', counts', seen + [word])
  {
    assert (seen + [word])[..|seen|] == seen;
    DedupSpec(seen);
    forall v ensures Occurrences(seen + [word], v) == Occurrences(seen, v) + (if v == word then 1 else 0) {
      OccurrencesAppend(seen, [word], v);
      assert [word][1..] == [];
    }
    if word in counts {
      order', counts' := order, counts[word := counts[word] + 1];
    } else {
      NoOccurrence(seen, word);
      order', counts' := order + [word], counts[word := 1];
    }
    assert forall w :: w in counts' <==> w in seen + [word];
    assert forall w :: w in counts' ==> counts'[w] == Occurrences(seen + [word], w);
  }

  /** `order` and `counts` hold the words of `seen`: first-seen order and occurrence counts. */
  ghost predicate Counted(order: seq<string>, counts: map<string, nat>, seen: seq<string>) {
    order == Dedup(seen)
    && (forall w :: w in counts <==> w in seen)
    && forall w :: w in counts ==> counts[w] == Occurrences(seen, w)
  }

  /** The counting loop of `extractKeywords` over one text's words. */
  method CountWords(words: seq<string>, order: seq<string>, counts: map<string, nat>, ghost seen: seq<string>)
    returns (order': seq<string>, counts': map<string, nat>)
    requires Counted(order, counts, seen)
    ensures Counted(order', counts', seen + words)
  {
    order', counts' := order, counts;
    assert seen + words[..0] == seen;
    for j := 0 to |words|
      invariant Counted(order', counts', seen + words[..j])
    {
      assert seen + words[..j + 1] == (seen + words[..j]) + [words[j]];
      order', counts' := CountWord(order', counts', words[j], seen + words[..j]);
    }
    assert words[..|words|] == words;
  }

  /** The `texts.forEach` loop of `extractKeywords`: counts the words of every text into `wordCounts`. */
  method TallyWords(texts: seq<string>) returns (order: seq<string>, wordCounts: map<string, nat>)
    ensures Counted(order, wordCounts, AllWords(texts))
  {
    order := [];
    wordCounts := map[];
    for t := 0 to |texts|
      invariant Counted(order, wordCounts, AllWords(texts[..t]))
    {
      assert texts[..t + 1][..t] == texts[..t];
      order, wordCounts := CountWords(WordsOf(texts[t]), order, wordCounts, AllWords(texts[..t]));
    }
    assert texts[..|texts|] == texts;
  }

  /** The counted words, read back in insertion order, are the entries. */
  lemma CountedEntries(order: seq<string>, counts: map<string, nat>, words: seq<string>)
    requires Counted(order, counts, words)
    ensures forall i :: 0 <= i < |order| ==> order[i] in counts
    ensures |order| == |Entries(words)|
    ensures forall i :: 0 <= i < |order| ==> Entries(words)[i] == WordCount(order[i], counts[order[i]])
  {
    DedupSpec(words);
  }

  /** `extractKeywords(texts)`: counts every word of every text, sorts by count, keeps ten. */
  method ExtractKeywords(texts: seq<string>) returns (keywords: seq<string>)
    ensures keywords == Keywords(texts)
  {
    var order, wordCounts := TallyWords(texts);
    CountedEntries(order, wordCounts, AllWords(texts));
    var entries := seq(|order|, i requires 0 <= i < |order| => WordCount(order[i], wordCounts[order[i]]));
    assert entries == Entries(AllWords(texts));
    var top := Take(SortBy(entries, ByCount), 10);
    keywords := seq(|top|, i requires 0 <= i < |top| => top[i].word);
  }

  /** An entry of the sorted list is one of the entries, so its count is its word's count. */
  lemma SortedEntry(words: seq<string>, m: nat)
    requires m < |SortBy(Entries(words), ByCount)|
    ensures SortBy(Entries(words), ByCount)[m].word in words
    ensures SortBy(Entries(words), ByCount)[m].count == Occurrences(words, SortBy(Entries(words), ByCount)[m].word)
  {
    var sorted := SortBy(Entries(words), ByCount);
    SortByPermutation(Entries(words), ByCount);
    DedupSpec(words);
    assert sorted[m] in multiset(Entries(words));
  }

  /** The `i`-th top word is the word of the `i`-th sorted entry, with its count. */
  lemma TopWord(words: seq<string>, i: nat)
    requires i < |TopWords(words)|
    ensures TopWords(words)[i] == SortBy(Entries(words), ByCount)[i].word
    ensures TopWords(words)[i] in words
    ensures SortBy(Entries(words), ByCount)[i].count == Occurrences(words, TopWords(words)[i])
  {
    SortedEntry(words, i);
  }

  /** No keyword is listed twice: the entries have distinct words and sorting only rearranges them. */
  lemma TopWordsDistinct(words: seq<string>)
    ensures Distinct(TopWords(words))
  {
    var entries := Entries(words);
    var sorted := SortBy(entries, ByCount);
    var r := TopWords(words);
    SortByPermutation(entries, ByCount);
    DedupSpec(words);
    assert Distinct(entries);
    DistinctPermutation(entries, sorted);
    forall i, j | 0 <= i < j < |r| ensures r[i] != r[j] {
      TopWord(words, i);
      TopWord(words, j);
    }
  }

  /** The keywords come in non-increasing order of count. */
  lemma TopWordsOrdered(words: seq<string>)
    ensures forall i, j :: 0 <= i < j < |TopWords(words)| ==>
      Occurrences(words, TopWords(words)[i]) >= Occurrences(words, TopWords(words)[j])
  {
    var sorted := SortBy(Entries(words), ByCount);
    SortByPermutation(Entries(words), ByCount);
    forall i, j | 0 <= i < j < |TopWords(words)|
      ensures Occurrences(words, TopWords(words)[i]) >= Occurrences(words, TopWords(words)[j]) {
      TopWord(words, i);
      TopWord(words, j);
      assert ByCount(sorted[i]) <= ByCount(sorted[j]);
    }
  }

  /** Every sorted entry within the first ten is listed. */
  lemma TopWordsCover(words: seq<string>, m: nat)
    requires m < |SortBy(Entries(words), ByCount)|
    ensures m < |TopWords(words)| ==> SortBy(Entries(words), ByCount)[m].word in TopWords(words)
  {
    if m < |TopWords(words)| {
      TopWord(words, m);
    }
  }

  /** A counted word left out occurs no more often than any keyword, and then there are ten keywords. */
  lemma TopWordsComplete(words: seq<string>, w: string)
    requires w in words && w !in TopWords(words)
    ensures |TopWords(words)| == 10
    ensures forall i :: 0 <= i < 10 ==> Occurrences(words, w) <= Occurrences(words, TopWords(words)[i])
  {
    var entries := Entries(words);
    var sorted := SortBy(entries, ByCount);
    var r := TopWords(words);
    SortByPermutation(entries, ByCount);
    DedupSpec(words);
    var d :| 0 <= d < |Dedup(words)| && Dedup(words)[d] == w;
    assert entries[d] in multiset(sorted);
    var m :| 0 <= m < |sorted| && sorted[m] == entries[d];
    assert sorted[m].word == w && sorted[m].count == Occurrences(words, w);
    TopWordsCover(words, m);
    forall i | 0 <= i < 10 ensures Occurrences(words, w) <= Occurrences(words, r[i]) {
      TopWord(words, i);
      assert ByCount(sorted[i]) <= ByCount(sorted[m]);
    }
  }

  /**
   * The keywords: at most ten, pairwise different, each a counted word, in
   * non-increasing order of count; a counted word that is left out occurs
   * no more often than any keyword, and then there are ten.
   */
  lemma TopWordsSpec(words: seq<string>)
    ensures |TopWords(words)| <= 10
    ensures Distinct(TopWords(words))
    ensures forall i :: 0 <= i < |TopWords(words)| ==> TopWords(words)[i] in words
    ensures forall i, j :: 0 <= i < j < |TopWords(words)| ==>
      Occurrences(words, TopWords(words)[i]) >= Occurrences(words, TopWords(words)[j])
    ensures forall w :: w in words && w !in TopWords(words) ==>
      |TopWords(words)| == 10 && forall i :: 0 <= i < 10 ==> Occurrences(words, w) <= Occurrences(words, TopWords(words)[i])
  {
    TopWordsDistinct(words);
    TopWordsOrdered(words);
    forall i | 0 <= i < |TopWords(words)| ensures TopWords(words)[i] in words {
      TopWord(words, i);
    }
    forall w | w in words && w !in TopWords(words)
      ensures |TopWords(words)| == 10 && forall i :: 0 <= i < 10 ==> Occurrences(words, w) <= Occurrences(words, TopWords(words)[i]) {
      TopWordsComplete(words, w);
    }
  }

  /** The keywords of the node texts are lower-case, punctuation-free, longer than two characters and no stop words. */
  lemma KeywordsShape(texts: seq<string>, i: nat)
    requires i < |Keywords(texts)|
    ensures IsKeyword(Keywords(texts)[i]) && forall c :: c in Keywords(texts)[i] ==> IsLowerWordChar(c)
  {
    TopWordsSpec(AllWords(texts));
    AllWordsShape(texts, Keywords(texts)[i]);
  }

  // ------------------------------------------------------ main branches

  /** The root nodes of the forest, in order. */
  function RootNodes(f: Forest): (r: seq<InsightNode>)
    requires WellFormed(f)
    ensures |r| == |f.roots| && forall i :: 0 <= i < |r| ==> r[i] == f.nodes[f.roots[i]]
  {
    seq(|f.roots|, i requires 0 <= i < |f.roots| => f.nodes[f.roots[i]])
  }

  /** A root at depth 0 or 1. */
  predicate IsShallow(n: InsightNode) {
    n.depth <= 1
  }

  /** `identifyMainBranches(nodes)`: the texts of the roots of depth at most 1, at most eight. */
  function MainBranches(f: Forest): (r: seq<string>)
    requires WellFormed(f)
    ensures |r| <= 8
  {
    var shallow := Filter(RootNodes(f), IsShallow);
    Take(seq(|shallow|, i requires 0 <= i < |shallow| => shallow[i].text), 8)
  }

  /** The main branches are the first texts of the shallow roots. */
  lemma MainBranchesPrefix(f: Forest)
    requires WellFormed(f)
    ensures |MainBranches(f)| <= |Filter(RootNodes(f), IsShallow)|
    ensures |MainBranches(f)| < 8 ==> |MainBranches(f)| == |Filter(RootNodes(f), IsShallow)|
    ensures forall i :: 0 <= i < |MainBranches(f)| ==> MainBranches(f)[i] == Filter(RootNodes(f), IsShallow)[i].text
  {
    var shallow := Filter(RootNodes(f), IsShallow);
    var texts := seq(|shallow|, i requires 0 <= i < |shallow| => shallow[i].text);
    assert MainBranches(f) == Take(texts, 8);
  }

  /** `t` is the text of a root at depth 0 or 1. */
  ghost predicate ShallowRootText(f: Forest, t: string)
    requires WellFormed(f)
  {
    exists n :: n in RootNodes(f) && IsShallow(n) && n.text == t
  }

  /** Each main branch is the text of a shallow root; with fewer than eight, every shallow root is one. */
  lemma MainBranchesSpec(f: Forest)
    requires WellFormed(f)
    ensures forall i :: 0 <= i < |MainBranches(f)| ==> ShallowRootText(f, MainBranches(f)[i])
    ensures |MainBranches(f)| < 8 ==> forall n :: n in RootNodes(f) && IsShallow(n) ==> n.text in MainBranches(f)
  {
    var shallow := Filter(RootNodes(f), IsShallow);
    MainBranchesPrefix(f);
    FilterSpecAll(RootNodes(f), IsShallow);
    if |MainBranches(f)| < 8 {
      forall n | n in RootNodes(f) && IsShallow(n) ensures n.text in MainBranches(f) {
        var k :| 0 <= k < |shallow| && shallow[k] == n;
        assert MainBranches(f)[k] == n.text;
      }
    }
    forall i | 0 <= i < |MainBranches(f)| ensures ShallowRootText(f, MainBranches(f)[i]) {
      assert shallow[i] in shallow;
    }
  }

  // ------------------------------------------------------- connections

  /** `new Set(text.toLowerCase().split(/\s+/))`: the words of a text, punctuation kept. */
  function RawWords(text: string): seq<string> {
    SplitWhitespace(Lower(text))
  }

  /** `keyword` is a word of both texts. */
  predicate InBoth(keyword: string, text1: string, text2: string) {
    keyword in RawWords(text1) && keyword in RawWords(text2)
  }

  /** `findCommonKeywords(text1, text2, keywords)`: the keywords that are words of both texts, in order. */
  function CommonKeywords(text1: string, text2: string, keywords: seq<string>): (r: seq<string>)
    ensures forall w :: w in r <==> w in keywords && InBoth(w, text1, text2)
    ensures IsSubsequence(r, keywords)
  {
    var both := (k: string) => InBoth(k, text1, text2);
    FilterSpecAll(keywords, both);
    FilterIsSubsequence(keywords, both);
    Filter(keywords, both)
  }

  /** A suggested connection. */
  datatype Connection = Connection(from: string, to: string, reason: string)

  /** The connection pushed for two texts sharing the keywords `common`. */
  function Connect(text1: string, text2: string, common: seq<string>): Connection {
    Connection(text1, text2, "Share common concepts: " + Join(common, ", "))
  }

  /** The connection, if any, pushed for the pair `(i, j)`. */
  function PairLink(texts: seq<string>, keywords: seq<string>, i: nat, j: nat): seq<Connection>
    requires i < j < |texts|
  {
    var common := CommonKeywords(texts[i], texts[j], keywords);
    if common != [] then [Connect(texts[i], texts[j], common)] else []
  }

  /** The connections for the pairs `(i, j')` with `i < j' < j`, in order. */
  function RowLinks(texts: seq<string>, keywords: seq<string>, i: nat, j: nat): seq<Connection>
    requires i < |texts| && j <= |texts|
  {
    if j <= i + 1 then [] else RowLinks(texts, keywords, i, j - 1) + PairLink(texts, keywords, i, j - 1)
  }

  /** The connections for all pairs whose first index is below `i`, in order. */
  function Links(texts: seq<string>, keywords: seq<string>, i: nat): seq<Connection>
    requires i <= |texts|
  {
    if i == 0 then [] else Links(texts, keywords, i - 1) + RowLinks(texts, keywords, i - 1, |texts|)
  }

  /** `c` links the texts at `a < b`, which share a keyword. */
  predicate Links2(texts: seq<string>, keywords: seq<string>, c: Connection, a: nat, b: nat) {
    a < b < |texts|
    && CommonKeywords(texts[a], texts[b], keywords) != []
    && c == Connect(texts[a], texts[b], CommonKeywords(texts[a], texts[b], keywords))
  }

  /** The connection pushed for a pair links that pair. */
  lemma PairLinkSpec(texts: seq<string>, keywords: seq<string>, a: nat, b: nat, c: Connection)
    requires a < b < |texts| && c in PairLink(texts, keywords, a, b)
    ensures Links2(texts, keywords, c, a, b)
  {
  }

  /** `c` is pushed for some pair `(i, b)` with `i < b < j`. */
  ghost predicate InRow(texts: seq<string>, keywords: seq<string>, i: nat, j: nat, c: Connection)
    requires j <= |texts|
  {
    exists b :: i < b < j && c in PairLink(texts, keywords, i, b)
  }

  lemma {:induction false} RowLinksSpec(texts: seq<string>, keywords: seq<string>, i: nat, j: nat, c: Connection)
    requires i < |texts| && j <= |texts| && c in RowLinks(texts, keywords, i, j)
    ensures InRow(texts, keywords, i, j, c)
  {
    if j <= i + 1 {
      assert false;
    } else {
      if c in RowLinks(texts, keywords, i, j - 1) {
        RowLinksSpec(texts, keywords, i, j - 1, c);
      } else {
        assert c in PairLink(texts, keywords, i, j - 1);
      }
    }
  }

  /** `c` links two texts, the first before the second, that share a keyword. */
  ghost predicate Linked(texts: seq<string>, keywords: seq<string>, c: Connection) {
    exists a, b :: Links2(texts, keywords, c, a, b)
  }

  /** A connection of row `i` links two texts. */
  lemma RowLinkPair(texts: seq<string>, keywords: seq<string>, i: nat, c: Connection)
    requires i < |texts| && c in RowLinks(texts, keywords, i, |texts|)
    ensures Linked(texts, keywords, c)
  {
    RowLinksSpec(texts, keywords, i, |texts|, c);
    var b :| i < b < |texts| && c in PairLink(texts, keywords, i, b);
    PairLinkSpec(texts, keywords, i, b, c);
  }

  /** Every connection links two texts, the first before the second, that share a keyword. */
  lemma {:induction false} LinksSpec(texts: seq<string>, keywords: seq<string>, i: nat, c: Connection)
    requires i <= |texts| && c in Links(texts, keywords, i)
    ensures Linked(texts, keywords, c)
  {
    if i == 0 {
      assert false;
    } else if c in Links(texts, keywords, i - 1) {
      LinksSpec(texts, keywords, i - 1, c);
    } else {
      RowLinkPair(texts, keywords, i - 1, c);
    }
  }

  /** One more step of the inner loop adds the pair `(i, j)`. */
  lemma RowLinksStep(texts: seq<string>, keywords: seq<string>, i: nat, j: nat)
    requires i < j < |texts|
    ensures RowLinks(texts, keywords, i, j + 1) == RowLinks(texts, keywords, i, j) + PairLink(texts, keywords, i, j)
  {
  }

  /** The body of the inner loop of `suggestConnections`, for the pair `(i, j)`. */
  method ConnectPair(texts: seq<string>, keywords: seq<string>, i: nat, j: nat, connections: seq<Connection>)
    returns (out: seq<Connection>)
    requires i < j < |texts|
    ensures out == connections + PairLink(texts, keywords, i, j)
  {
    var text1 := texts[i];
    var text2 := texts[j];
    var commonKeywords := CommonKeywords(text1, text2, keywords);
    out := connections;
    if |commonKeywords| > 0 {
      out := out + [Connect(text1, text2, commonKeywords)];
    }
  }

  /** The inner loop of `suggestConnections`: the pairs of `text1` with the texts after it. */
  method ConnectRow(texts: seq<string>, keywords: seq<string>, i: nat, connections: seq<Connection>)
    returns (out: seq<Connection>)
    requires i < |texts|
    ensures out == connections + RowLinks(texts, keywords, i, |texts|)
  {
    out := connections;
    var j := i + 1;
    while j < |texts|
      invariant i + 1 <= j <= |texts|
      invariant out == connections + RowLinks(texts, keywords, i, j)
    {
      out := ConnectPair(texts, keywords, i, j, out);
      RowLinksStep(texts, keywords, i, j);
      assert out == connections + (RowLinks(texts, keywords, i, j) + PairLink(texts, keywords, i, j));
      j := j + 1;
    }
    assert j == |texts|;
  }

  /** `suggestConnections(nodes, keywords)`: every pair `i < j` of the pre-order texts sharing a keyword, the first five kept. */
  method SuggestConnections(f: Forest, keywords: seq<string>) returns (connections: seq<Connection>)
    requires WellFormed(f)
    ensures connections == Take(Links(AllTexts(f), keywords, |AllTexts(f)|), 5)
  {
    var allTexts := ExtractAllTexts(f);
    var found: seq<Connection> := [];
    for i := 0 to |allTexts|
      invariant found == Links(allTexts, keywords, i)
    {
      found := ConnectRow(allTexts, keywords, i, found);
    }
    connections := Take(found, 5);
  }

  /** At most five connections, each between two texts, the first before the second, that share a keyword. */
  lemma SuggestedConnectionsSpec(texts: seq<string>, keywords: seq<string>, k: nat)
    requires k < |Take(Links(texts, keywords, |texts|), 5)|
    ensures |Take(Links(texts, keywords, |texts|), 5)| <= 5
    ensures exists a, b :: Links2(texts, keywords, Take(Links(texts, keywords, |texts|), 5)[k], a, b)
    ensures exists w :: w in keywords && InBoth(w, Take(Links(texts, keywords, |texts|), 5)[k].from, Take(Links(texts, keywords, |texts|), 5)[k].to)
  {
    var c := Take(Links(texts, keywords, |texts|), 5)[k];
    assert c in Links(texts, keywords, |texts|);
    LinksSpec(texts, keywords, |texts|, c);
    var a: nat, b: nat :| Links2(texts, keywords, c, a, b);
    var w := CommonKeywords(texts[a], texts[b], keywords)[0];
    assert w in CommonKeywords(texts[a], texts[b], keywords);
  }

  // ----------------------------------------------------- missing topics

  /** The fixed topic suggestions, in order. */
  const TopicSuggestions: seq<string> := [
    "Implementation challenges",
    "Best practices",
    "Future considerations",
    "Related technologies",
    "Common pitfalls",
    "Success metrics",
    "Timeline considerations",
    "Resource requirements"
  ]

  /** `s.split(' ')[0]`: everything before the first space. */
  function FirstWord(s: string): (r: string)
    ensures |r| <= |s| && r == s[..|r|] && ' ' !in r
  {
    if s == [] || s[0] == ' ' then [] else [s[0]] + FirstWord(s[1..])
  }

  /** A suggestion is kept when its lower-cased first word is not a keyword. */
  predicate Uncovered(keywords: seq<string>, suggestion: string) {
    FirstWord(Lower(suggestion)) !in keywords
  }

  /** The suggestions whose first word is not a keyword, in their order. */
  function KeptTopics(suggestions: seq<string>, keywords: seq<string>): (r: seq<string>)
    ensures forall t :: t in r <==> t in suggestions && Uncovered(keywords, t)
    ensures IsSubsequence(r, suggestions)
  {
    var uncovered := (t: string) => Uncovered(keywords, t);
    FilterSpecAll(suggestions, uncovered);
    FilterIsSubsequence(suggestions, uncovered);
    Filter(suggestions, uncovered)
  }

  /** The first four suggestions whose first word is not a keyword. */
  function FirstUncovered(suggestions: seq<string>, keywords: seq<string>): seq<string> {
    Take(KeptTopics(suggestions, keywords), 4)
  }

  /** `suggestMissingTopics(keywords)`. */
  function MissingTopics(keywords: seq<string>): seq<string> {
    FirstUncovered(TopicSuggestions, keywords)
  }

  /**
   * At most four suggestions, in the order of the list; none whose first
   * word is a keyword; with fewer than four, every other one.
   */
  lemma FirstUncoveredSpec(suggestions: seq<string>, keywords: seq<string>)
    ensures |FirstUncovered(suggestions, keywords)| <= 4
    ensures IsSubsequence(FirstUncovered(suggestions, keywords), suggestions)
    ensures forall t :: t in FirstUncovered(suggestions, keywords) ==> t in suggestions && Uncovered(keywords, t)
    ensures |FirstUncovered(suggestions, keywords)| < 4 ==>
      forall t :: t in suggestions && Uncovered(keywords, t) ==> t in FirstUncovered(suggestions, keywords)
  {
    var kept := KeptTopics(suggestions, keywords);
    var r := FirstUncovered(suggestions, keywords);
    assert r == kept[..|r|];
    PrefixIsSubsequence(kept, |r|);
    SubsequenceTrans(r, kept, suggestions);
    forall t | t in r ensures t in kept {
      var i :| 0 <= i < |r| && r[i] == t;
      assert kept[i] == t;
    }
    if |r| < 4 {
      assert r == kept;
    }
  }

  /** A prefix is a subsequence. */
  lemma {:induction false} PrefixIsSubsequence<T>(s: seq<T>, n: nat)
    requires n <= |s|
    ensures IsSubsequence(s[..n], s)
  {
    if n > 0 {
      PrefixIsSubsequence(s[1..], n - 1);
      assert s[..n][1..] == s[1..][..n - 1];
    }
  }

  /** A subsequence of a subsequence is a subsequence. */
  lemma {:induction false} SubsequenceTrans<T>(a: seq<T>, b: seq<T>, c: seq<T>)
    requires IsSubsequence(a, b) && IsSubsequence(b, c)
    ensures IsSubsequence(a, c)
    decreases |c|
  {
    if a != [] {
      if b[0] == c[0] {
        if a[0] == b[0] {
          SubsequenceTrans(a[1..], b[1..], c[1..]);
        } else {
          SubsequenceTrans(a, b[1..], c[1..]);
        }
        if a[0] != c[0] {
          SubsequenceOfTail(a, c);
        }
      } else {
        SubsequenceTrans(a, b, c[1..]);
        SubsequenceOfTail(a, c);
      }
    }
  }

  // ------------------------------------------------------------ results

  /** `InsightData`. */
  datatype InsightData = InsightData(mainBranches: seq<string>, suggestedConnections: seq<Connection>, missingTopics: seq<string>, summary: string)

  /** The summary sentence for `totalNodes` nodes, `branches` main branches and the given themes. */
  function SummaryText(totalNodes: nat, branches: nat, themes: seq<string>): string {
    "This mind map contains " + NatToString(totalNodes) + " nodes"
    + (" across " + NatToString(branches) + " main branches. Key themes include: " + Join(themes, ", ")
       + ". The map covers " + NatToString(branches) + " primary topics with varying levels of detail.")
  }

  /** The sentence opens with the node count. */
  lemma SummaryTextOpens(totalNodes: nat, branches: nat, themes: seq<string>)
    ensures StartsWith(SummaryText(totalNodes, branches, themes), "This mind map contains " + NatToString(totalNodes) + " nodes")
  {
    var head := "This mind map contains " + NatToString(totalNodes) + " nodes";
    var rest := " across " + NatToString(branches) + " main branches. Key themes include: " + Join(themes, ", ")
       + ". The map covers " + NatToString(branches) + " primary topics with varying levels of detail.";
    PrefixOfAppend(head, rest);
  }

  /** `generateSummary(nodes, keywords)`: the pre-order count, the main branch count and the first three keywords. */
  function Summary(f: Forest, keywords: seq<string>): string
    requires WellFormed(f)
  {
    SummaryText(|AllTexts(f)|, |MainBranches(f)|, Take(keywords, 3))
  }

  /**
   * The summary counts one node per distinct non-empty text collected from
   * the page: the number it starts with is that count.
   */
  lemma SummaryNodeCount(els: seq<NodeElement>, keywords: seq<string>)
    ensures |AllTexts(Structure(els))| == |Collected(els)|
    ensures StartsWith(Summary(Structure(els), keywords), "This mind map contains " + NatToString(|Collected(els)|) + " nodes")
  {
    var f := Structure(els);
    SummaryTextOpens(|AllTexts(f)|, |MainBranches(f)|, Take(keywords, 3));
  }

  /** `getFallbackInsights()`. */
  function Fallback(): InsightData {
    InsightData(["Analysis unavailable"], [], ["Additional analysis needed"], "Unable to perform detailed analysis. Please try again.")
  }

  /**
   * `generateInsightsClientSide(mindMapData)`; the result keeps its promised
   * sizes: eight branches, five connections and four topics at most.
   */
  function ClientSide(f: Forest): (r: InsightData)
    requires WellFormed(f)
    ensures |r.mainBranches| <= 8 && |r.suggestedConnections| <= 5 && |r.missingTopics| <= 4
  {
    var keywords := Keywords(AllTexts(f));
    FirstUncoveredSpec(TopicSuggestions, keywords);
    var connections := Take(Links(AllTexts(f), keywords, |AllTexts(f)|), 5);
    InsightData(MainBranches(f), connections, MissingTopics(keywords), Summary(f, keywords))
  }

  /** `generateInsightsClientSide(mindMapData)`, through the methods that compute each part. */
  method GenerateInsightsClientSide(f: Forest) returns (insights: InsightData)
    requires WellFormed(f)
    ensures insights == ClientSide(f)
  {
    var allTexts := ExtractAllTexts(f);
    var keywords := ExtractKeywords(allTexts);
    var connections := SuggestConnections(f, keywords);
    insights := InsightData(MainBranches(f), connections, MissingTopics(keywords), Summary(f, keywords));
  }

  /** `generateInsights(mindMapData)`: the Chrome AI reply when there is one, otherwise the client-side result. */
  function Generated(f: Forest, chromeReply: Option<InsightData>): InsightData
    requires WellFormed(f)
  {
    if chromeReply.Some? then chromeReply.value else ClientSide(f)
  }

  /** `generateInsights(mindMapData)`, through the method that computes the client-side result. */
  method GenerateInsights(f: Forest, chromeReply: Option<InsightData>) returns (insights: InsightData)
    requires WellFormed(f)
    ensures insights == Generated(f, chromeReply)
  {
    if chromeReply.Some? {
      insights := chromeReply.value;
    } else {
      insights := GenerateInsightsClientSide(f);
    }
  }

  /** `generateDataHash(data)`: the hash of the pre-order texts, None when hashing throws. */
  method GenerateDataHash(f: Forest, dataHash: seq<string> -> Option<string>) returns (h: Option<string>)
    requires WellFormed(f)
    ensures h == dataHash(AllTexts(f))
  {
    var texts := ExtractAllTexts(f);
    h := dataHash(texts);
  }

  /** The analyser's cache: the last result and the hash of the texts it was computed from. */
  datatype Cache = Cache(cachedInsights: Option<InsightData>, lastAnalysisHash: string)

  /**
   * `performAnalysis()` on values: the insights returned and the cache
   * afterwards, given the current hash of the texts (None when hashing
   * throws) and the insights `generateInsights` would produce, which are
   * only used when the hash is not the cached one.
   */
  function Perform(c: Cache, currentHash: Option<string>, computed: InsightData): (InsightData, Cache) {
    if currentHash.None? then (Fallback(), c)
    else if c.cachedInsights.Some? && c.lastAnalysisHash == currentHash.value then (c.cachedInsights.value, c)
    else (computed, Cache(Some(computed), currentHash.value))
  }

  /**
   * The outcomes of `performAnalysis`: when hashing throws, the fallback
   * with the cache untouched; otherwise the cache afterwards holds the
   * returned insights under the current hash, and they are the cached
   * ones when the hash matched and the fresh ones otherwise.
   */
  lemma PerformSpec(c: Cache, currentHash: Option<string>, computed: InsightData)
    ensures currentHash.None? ==> Perform(c, currentHash, computed) == (Fallback(), c)
    ensures currentHash.Some? ==>
      Perform(c, currentHash, computed).1 == Cache(Some(Perform(c, currentHash, computed).0), currentHash.value)
    ensures currentHash.Some? && c.cachedInsights.Some? && c.lastAnalysisHash == currentHash.value ==>
      Perform(c, currentHash, computed) == (c.cachedInsights.value, c)
    ensures currentHash.Some? && !(c.cachedInsights.Some? && c.lastAnalysisHash == currentHash.value) ==>
      Perform(c, currentHash, computed).0 == computed
  {
  }

  /**
   * Analysing the same mind map twice: the second call is a cache hit and
   * returns the first call's insights, whatever fresh insights it was offered.
   */
  lemma PerformTwice(c: Cache, currentHash: Option<string>, computed1: InsightData, computed2: InsightData)
    requires currentHash.Some?
    ensures Perform(Perform(c, currentHash, computed1).1, currentHash, computed2) == Perform(c, currentHash, computed1)
  {
  }

  /** The forest read from the elements and the hash of its texts, as `performAnalysis` first computes them. */
  method Snapshot(els: seq<NodeElement>, dataHash: seq<string> -> Option<string>) returns (f: Forest, h: Option<string>)
    ensures f == Structure(els) && WellFormed(f)
    ensures h == dataHash(AllTexts(f))
  {
    f := ExtractMindMapStructure(els);
    h := GenerateDataHash(f, dataHash);
  }

  /** The analyser; its fields are the cache. */
  class AIInsightsAnalyzer {
    var cachedInsights: Option<InsightData>
    var lastAnalysisHash: string

    constructor()
      ensures cachedInsights == None && lastAnalysisHash == ""
    {
      cachedInsights := None;
      lastAnalysisHash := "";
    }

    /**
     * `performAnalysis()`. `els` are the `g.node` elements, `dataHash`
     * stands for `generateDataHash` over the pre-order texts (None when it
     * throws) and `chromeReply` for the Chrome AI answer, when available.
     */
    method PerformAnalysis(els: seq<NodeElement>, dataHash: seq<string> -> Option<string>, chromeReply: Option<InsightData>)
      returns (insights: InsightData)
      modifies this
      ensures insights
        == Perform(old(Cache(cachedInsights, lastAnalysisHash)), dataHash(AllTexts(Structure(els))), Generated(Structure(els), chromeReply)).0
      ensures Cache(cachedInsights, lastAnalysisHash)
        == Perform(old(Cache(cachedInsights, lastAnalysisHash)), dataHash(AllTexts(Structure(els))), Generated(Structure(els), chromeReply)).1
    {
      var mindMapData, currentHash := Snapshot(els, dataHash);
      insights := CachedOrGenerated(mindMapData, currentHash, chromeReply);
    }

    /** The cache check and update of `performAnalysis`, once the forest and its hash are known. */
    method CachedOrGenerated(mindMapData: Forest, currentHash: Option<string>, chromeReply: Option<InsightData>)
      returns (insights: InsightData)
      requires WellFormed(mindMapData)
      modifies this
      ensures insights == Perform(old(Cache(cachedInsights, lastAnalysisHash)), currentHash, Generated(mindMapData, chromeReply)).0
      ensures Cache(cachedInsights, lastAnalysisHash)
        == Perform(old(Cache(cachedInsights, lastAnalysisHash)), currentHash, Generated(mindMapData, chromeReply)).1
    {
      if currentHash.None? {
        insights := Fallback();
      } else if cachedInsights.Some? && lastAnalysisHash == currentHash.value {
        insights := cachedInsights.value;
      } else {
        var computed := GenerateInsights(mindMapData, chromeReply);
        insights := Store(computed, currentHash.value);
      }
    }

    /** Caches `insights` under `hash` and returns them. */
    method Store(computed: InsightData, hash: string) returns (insights: InsightData)
      modifies this
      ensures insights == computed && cachedInsights == Some(computed) && lastAnalysisHash == hash
    {
      cachedInsights := Some(computed);
      lastAnalysisHash := hash;
      insights := computed;
    }
  }
}
