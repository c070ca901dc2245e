/** Generic sequence helpers: reversal, regrouping of concatenations, filtering and subsequences. */
module Seqs {

  /** `s.reverse()`. */
  function Reversed<T>(s: seq<T>): (r: seq<T>)
    ensures |r| == |s|
    ensures forall i :: 0 <= i < |s| ==> r[i] == s[|s| - 1 - i]
  {
    if s == [] then [] else Reversed(s[1..]) + [s[0]]
  }

  /** Reversing keeps every element as often as it was there. */
  lemma {:induction false} ReversedIsPermutation<T>(s: seq<T>)
    ensures multiset(Reversed(s)) == multiset(s)
  {
    if s != [] {
      ReversedIsPermutation(s[1..]);
      assert s == [s[0]] + s[1..];
    }
  }

  /** Concatenation regroups freely. */
  lemma Regroup<T>(a: seq<T>, b: seq<T>, c: seq<T>)
    ensures a + (b + c) == (a + b) + c
  {
  }

  /** `s.filter(p)`: the elements that satisfy `p`, in their order. */
  function Filter<T>(s: seq<T>, p: T -> bool): (r: seq<T>)
    ensures |r| <= |s|
    ensures forall i :: 0 <= i < |r| ==> p(r[i])
  {
    if s == [] then [] else (if p(s[0]) then [s[0]] else []) + Filter(s[1..], p)
  }

  /** An element is kept exactly when it is in `s` and satisfies `p`. */
  lemma {:induction false} FilterSpec<T>(s: seq<T>, p: T -> bool, x: T)
    ensures x in Filter(s, p) <==> x in s && p(x)
  {
    if s != [] {
      FilterSpec(s[1..], p, x);
      assert s == [s[0]] + s[1..];
    }
  }

  /** `a` is `b` with some elements left out, the rest in their order. */
  predicate IsSubsequence<T(==)>(a: seq<T>, b: seq<T>)
    decreases |b|
  {
    if a == [] then true
    else if b == [] then false
    else if a[0] == b[0] then IsSubsequence(a[1..], b[1..])
    else IsSubsequence(a, b[1..])
  }

  /** A subsequence of the tail of `b` is a subsequence of `b`. */
  lemma {:induction false} SubsequenceOfTail<T>(a: seq<T>, b: seq<T>)
    requires b != [] && IsSubsequence(a, b[1..])
    ensures IsSubsequence(a, b)
    decreases |b|, 0
  {
    if a != [] && a[0] == b[0] {
      SubsequenceDropHead(a, b[1..]);
    }
  }

  /** Dropping the first element of a subsequence keeps a subsequence. */
  lemma {:induction false} SubsequenceDropHead<T>(a: seq<T>, b: seq<T>)
    requires a != [] && IsSubsequence(a, b)
    ensures IsSubsequence(a[1..], b)
    decreases |b|, 1
  {
    if b != [] {
      if a[0] == b[0] {
        if a[1..] != [] {
          SubsequenceOfTail(a[1..], b);
        }
      } else {
        SubsequenceDropHead(a, b[1..]);
        if a[1..] != [] {
          SubsequenceOfTail(a[1..], b);
        }
      }
    }
  }

  /** Filtering keeps a subsequence: nothing is added and the order is kept. */
  lemma {:induction false} FilterIsSubsequence<T>(s: seq<T>, p: T -> bool)
    ensures IsSubsequence(Filter(s, p), s)
  {
    if s != [] {
      FilterIsSubsequence(s[1..], p);
      if p(s[0]) {
        assert Filter(s, p) == [s[0]] + Filter(s[1..], p);
      } else {
        assert Filter(s, p) == Filter(s[1..], p);
        SubsequenceOfTail(Filter(s[1..], p), s);
      }
    }
  }

  /** Filters with the same verdict on every element keep the same elements. */
  lemma {:induction false} FilterSame<T>(s: seq<T>, p: T -> bool, q: T -> bool)
    requires forall x :: p(x) == q(x)
    ensures Filter(s, p) == Filter(s, q)
  {
    if s != [] {
      FilterSame(s[1..], p, q);
    }
  }

  /** Two filters in a row are one filter by their conjunction. */
  lemma {:induction false} FilterTwice<T>(s: seq<T>, p: T -> bool, q: T -> bool, both: T -> bool)
    requires forall x :: both(x) == (p(x) && q(x))
    ensures Filter(Filter(s, p), q) == Filter(s, both)
  {
    if s != [] {
      FilterTwice(s[1..], p, q, both);
      FilterAppend((if p(s[0]) then [s[0]] else []), Filter(s[1..], p), q);
      if p(s[0]) {
        assert Filter([s[0]], q) == (if q(s[0]) then [s[0]] else []) by {
          assert [s[0]][1..] == [];
        }
      }
    }
  }

  /** Filtering distributes over concatenation. */
  lemma {:induction false} FilterAppend<T>(a: seq<T>, b: seq<T>, p: T -> bool)
    ensures Filter(a + b, p) == Filter(a, p) + Filter(b, p)
  {
    if a == [] {
      assert a + b == b;
    } else {
      assert (a + b)[0] == a[0];
      assert (a + b)[1..] == a[1..] + b;
      FilterAppend(a[1..], b, p);
      Regroup(if p(a[0]) then [a[0]] else [], Filter(a[1..], p), Filter(b, p));
    }
  }

  /** A filter every element passes keeps the whole sequence. */
  lemma {:induction false} FilterKeepsAll<T>(s: seq<T>, p: T -> bool)
    requires forall x :: p(x)
    ensures Filter(s, p) == s
  {
    if s != [] {
      FilterKeepsAll(s[1..], p);
      assert s == [s[0]] + s[1..];
    }
  }

  /** Inserts `x` into `s` after every element whose key is at most that of `x`: one step of a stable sort. */
  function InsertBy<T>(s: seq<T>, x: T, key: T -> int): seq<T>
  {
    if s == [] || key(s[|s| - 1]) <= key(x) then s + [x]
    else InsertBy(s[..|s| - 1], x, key) + [s[|s| - 1]]
  }

  /** `s.sort((a, b) => key(a) - key(b))`, which JavaScript performs as a stable sort. */
  function SortBy<T>(s: seq<T>, key: T -> int): seq<T>
  {
    if s == [] then [] else InsertBy(SortBy(s[..|s| - 1], key), s[|s| - 1], key)
  }

  /** The keys never go down. */
  predicate SortedBy<T>(s: seq<T>, key: T -> int) {
    forall i, j :: 0 <= i < j < |s| ==> key(s[i]) <= key(s[j])
  }

  lemma {:induction false} InsertByPermutation<T>(s: seq<T>, x: T, key: T -> int)
    ensures multiset(InsertBy(s, x, key)) == multiset(s) + multiset{x}
  {
    if s != [] && key(s[|s| - 1]) > key(x) {
      InsertByPermutation(s[..|s| - 1], x, key);
      assert s == s[..|s| - 1] + [s[|s| - 1]];
    }
  }

  lemma {:induction false} InsertBySorted<T>(s: seq<T>, x: T, key: T -> int)
    requires SortedBy(s, key)
    ensures SortedBy(InsertBy(s, x, key), key)
  {
    if s != [] && key(s[|s| - 1]) > key(x) {
      var init := s[..|s| - 1];
      var last := s[|s| - 1];
      InsertBySorted(init, x, key);
      InsertByPermutation(init, x, key);
      var r := InsertBy(init, x, key);
      forall y | y in r ensures key(y) <= key(last) {
        assert y in multiset(r);
        if y != x {
          assert y in multiset(init);
        }
      }
      assert forall i :: 0 <= i < |r| ==> r[i] in r;
    }
  }

  /** A stable sort puts the keys in order and keeps every element as often as it was there. */
  lemma {:induction false} SortByPermutation<T>(s: seq<T>, key: T -> int)
    ensures multiset(SortBy(s, key)) == multiset(s)
    ensures |SortBy(s, key)| == |s|
    ensures SortedBy(SortBy(s, key), key)
  {
    if s != [] {
      var init := s[..|s| - 1];
      var sorted := SortBy(init, key);
      SortByPermutation(init, key);
      InsertByPermutation(sorted, s[|s| - 1], key);
      InsertBySorted(sorted, s[|s| - 1], key);
      assert multiset(s) == multiset(init) + multiset{s[|s| - 1]} by {
        assert s == init + [s[|s| - 1]];
      }
      assert |SortBy(s, key)| == |s| by {
        assert |multiset(SortBy(s, key))| == |SortBy(s, key)|;
      }
    }
  }

  /** Inserting keeps, among the elements with key `k`, their order, `x` last. */
  lemma {:induction false} InsertByStable<T>(s: seq<T>, x: T, key: T -> int, k: int)
    ensures Filter(InsertBy(s, x, key), y => key(y) == k)
         == Filter(s, y => key(y) == k) + Filter([x], y => key(y) == k)
  {
    if s == [] || key(s[|s| - 1]) <= key(x) {
      FilterAppend(s, [x], y => key(y) == k);
    } else {
      var init := s[..|s| - 1];
      var last := s[|s| - 1];
      InsertByStable(init, x, key, k);
      FilterAppend(InsertBy(init, x, key), [last], y => key(y) == k);
      assert s == init + [last];
      FilterAppend(init, [last], y => key(y) == k);
      assert [x][1..] == [] && [last][1..] == [];
      if key(x) == k {
        assert Filter([last], y => key(y) == k) == [];
      } else {
        assert Filter([x], y => key(y) == k) == [];
        Regroup(Filter(init, y => key(y) == k), Filter([x], y => key(y) == k), Filter([last], y => key(y) == k));
      }
    }
  }

  /** The sort is stable: the elements with any one key keep their original order. */
  lemma {:induction false} SortByStable<T>(s: seq<T>, key: T -> int, k: int)
    ensures Filter(SortBy(s, key), y => key(y) == k) == Filter(s, y => key(y) == k)
  {
    if s != [] {
      var init := s[..|s| - 1];
      SortByStable(init, key, k);
      InsertByStable(SortBy(init, key), s[|s| - 1], key, k);
      assert s == init + [s[|s| - 1]];
      FilterAppend(init, [s[|s| - 1]], y => key(y) == k);
    }
  }

  /** How many times `x` occurs in `s`. */
  function Occurrences<T(==)>(s: seq<T>, x: T): nat {
    if s == [] then 0 else (if s[0] == x then 1 else 0) + Occurrences(s[1..], x)
  }

  lemma {:induction false} OccurrencesAppend<T>(a: seq<T>, b: seq<T>, x: T)
    ensures Occurrences(a + b, x) == Occurrences(a, x) + Occurrences(b, x)
  {
    if a == [] {
      assert a + b == b;
    } else {
      assert (a + b)[1..] == a[1..] + b;
      OccurrencesAppend(a[1..], b, x);
    }
  }

  /** `s.slice(0, n)`: the first `n` elements, or all of them when there are fewer. */
  function Take<T>(s: seq<T>, n: nat): (r: seq<T>)
    ensures |r| <= n
    ensures |r| == (if |s| <= n then |s| else n)
    ensures r == s[..|r|]
  {
    if |s| <= n then s else s[..n]
  }

  /** No element occurs twice. */
  predicate Distinct<T(==)>(s: seq<T>) {
    forall i, j :: 0 <= i < j < |s| ==> s[i] != s[j]
  }

  /** The elements of `s`, each once, in the order of their first occurrence. */
  function Dedup<T(==)>(s: seq<T>): seq<T> {
    if s == [] then []
    else
      var d := Dedup(s[..|s| - 1]);
      if s[|s| - 1] in d then d else d + [s[|s| - 1]]
  }

  /** `Dedup` keeps every element of `s` and repeats none. */
  lemma {:induction false} DedupSpec<T>(s: seq<T>)
    ensures Distinct(Dedup(s))
    ensures forall x :: x in Dedup(s) <==> x in s
  {
    if s != [] {
      var init := s[..|s| - 1];
      DedupSpec(init);
      assert s == init + [s[|s| - 1]];
    }
  }

  /** A distinct sequence holds every element at most once. */
  lemma {:induction false} DistinctOnce<T>(s: seq<T>, x: T)
    requires Distinct(s)
    ensures multiset(s)[x] <= 1
  {
    if s != [] {
      assert forall i, j :: 0 <= i < j < |s[1..]| ==> s[1..][i] == s[i + 1] && s[1..][j] == s[j + 1];
      DistinctOnce(s[1..], x);
      assert s == [s[0]] + s[1..];
      if s[0] == x {
        assert forall i :: 0 <= i < |s[1..]| ==> s[1..][i] == s[i + 1];
        assert x !in s[1..];
      }
    }
  }

  /** A rearrangement of a distinct sequence is distinct. */
  lemma DistinctPermutation<T>(a: seq<T>, b: seq<T>)
    requires Distinct(a) && multiset(a) == multiset(b)
    ensures Distinct(b)
  {
    forall i, j | 0 <= i < j < |b| ensures b[i] != b[j] {
      if b[i] == b[j] {
        var x := b[i];
        assert b == b[..j] + b[j..];
        assert b[..j][i] == x && b[j..][0] == x;
        assert multiset(b[..j])[x] >= 1 && multiset(b[j..])[x] >= 1;
        DistinctOnce(a, x);
        assert false;
      }
    }
  }

  /** An element that occurs is in the sequence. */
  lemma {:induction false} OccurringIsIn<T>(s: seq<T>, x: T)
    requires Occurrences(s, x) > 0
    ensures x in s
  {
    if s[0] != x {
      OccurringIsIn(s[1..], x);
    }
  }

  /** An element that is not in the sequence occurs zero times. */
  lemma {:induction false} NoOccurrence<T>(s: seq<T>, x: T)
    requires x !in s
    ensures Occurrences(s, x) == 0
  {
    if s != [] {
      NoOccurrence(s[1..], x);
    }
  }
}
