/**
 * String helpers that stand for the JavaScript string built-ins the
 * extension uses: `trim`, `toLowerCase`, `repeat`, `startsWith`,
 * `includes`, `split(/\s+/)`, `join` and number-to-string conversion.
 */
module Text {

  /** The characters `String.prototype.trim` and the regular expression class `\s` treat as white space. */
  predicate IsWhitespace(c: char) {
    c == ' ' || c == '\t' || c == '\n' || c == '\r' || c == '\U{0B}' || c == '\U{0C}'
    || c == '\U{A0}' || c == '\U{FEFF}'
  }

  /** No character of `s` is white space. */
  predicate NoWhitespace(s: string) {
    forall i :: 0 <= i < |s| ==> !IsWhitespace(s[i])
  }

  /** Drops the leading white space of `s`. */
  function TrimStart(s: string): (r: string)
    ensures |r| <= |s| && r == s[|s| - |r|..]
    ensures r == [] || !IsWhitespace(r[0])
    ensures forall i :: 0 <= i < |s| - |r| ==> IsWhitespace(s[i])
  {
    if s != [] && IsWhitespace(s[0]) then TrimStart(s[1..]) else s
  }

  /** Drops the trailing white space of `s`. */
  function TrimEnd(s: string): (r: string)
    ensures |r| <= |s| && r == s[..|r|]
    ensures r == [] || !IsWhitespace(r[|r| - 1])
    ensures forall i :: |r| <= i < |s| ==> IsWhitespace(s[i])
  {
    if s != [] && IsWhitespace(s[|s| - 1]) then TrimEnd(s[..|s| - 1]) else s
  }

  /** `s.trim()`: `s` without its leading and trailing white space. */
  function Trim(s: string): (r: string)
    ensures |r| <= |s|
    ensures r == [] || (!IsWhitespace(r[0]) && !IsWhitespace(r[|r| - 1]))
  {
    TrimEnd(TrimStart(s))
  }

  /** A string that starts and ends with a non-blank character is its own trim. */
  lemma TrimIdentity(s: string)
    requires s == [] || (!IsWhitespace(s[0]) && !IsWhitespace(s[|s| - 1]))
    ensures Trim(s) == s
  {
  }

  /** Trailing white space appended to a string that ends in a non-blank character is trimmed away again. */
  lemma {:induction false} TrimEndAppended(s: string, w: string)
    requires s == [] || !IsWhitespace(s[|s| - 1])
    requires forall i :: 0 <= i < |w| ==> IsWhitespace(w[i])
    ensures TrimEnd(s + w) == s
  {
    if w != [] {
      assert (s + w)[..|s + w| - 1] == s + w[..|w| - 1];
      TrimEndAppended(s, w[..|w| - 1]);
    } else {
      assert s + w == s;
    }
  }

  /** Leading white space put before a string that starts with a non-blank character is trimmed away again. */
  lemma {:induction false} TrimStartPrepended(w: string, s: string)
    requires s == [] || !IsWhitespace(s[0])
    requires forall i :: 0 <= i < |w| ==> IsWhitespace(w[i])
    ensures TrimStart(w + s) == s
  {
    if w != [] {
      assert (w + s)[1..] == w[1..] + s;
      TrimStartPrepended(w[1..], s);
    } else {
      assert w + s == s;
    }
  }

  /** Trimming `w1 + s + w2`, with white space around a string `s` that is non-blank at both ends, gives `s`. */
  lemma TrimPadded(w1: string, s: string, w2: string)
    requires s != [] && !IsWhitespace(s[0]) && !IsWhitespace(s[|s| - 1])
    requires forall i :: 0 <= i < |w1| ==> IsWhitespace(w1[i])
    requires forall i :: 0 <= i < |w2| ==> IsWhitespace(w2[i])
    ensures Trim(w1 + s + w2) == s
  {
    assert w1 + s + w2 == w1 + (s + w2);
    TrimStartPrepended(w1, s + w2);
    TrimEndAppended(s, w2);
  }

  /** `'  '.repeat(n)`: the indentation of depth `n`. */
  function Indent(n: nat): (r: string)
    ensures |r| == 2 * n
    ensures forall i :: 0 <= i < |r| ==> r[i] == ' '
  {
    if n == 0 then "" else "  " + Indent(n - 1)
  }

  /** `c.repeat(n)` for a one-character string `c`. */
  function Repeat(c: char, n: nat): (r: string)
    ensures |r| == n
    ensures forall i :: 0 <= i < n ==> r[i] == c
  {
    if n == 0 then "" else [c] + Repeat(c, n - 1)
  }

  /** Growing an indentation string by two spaces moves it one level deeper. */
  lemma {:induction false} IndentSucc(n: nat)
    ensures Indent(n) + "  " == Indent(n + 1)
  {
    if n > 0 {
      IndentSucc(n - 1);
      assert Indent(n) + "  " == "  " + (Indent(n - 1) + "  ");
    }
  }

  /** ASCII lower-casing of one character. */
  function LowerChar(c: char): (r: char)
    ensures 'A' <= c <= 'Z' ==> 'a' <= r <= 'z'
    ensures !('A' <= c <= 'Z') ==> r == c
  {
    if 'A' <= c <= 'Z' then (c as int + 32) as char else c
  }

  /** `s.toLowerCase()`, restricted to the ASCII letters. */
  function Lower(s: string): (r: string)
    ensures |r| == |s|
    ensures forall i :: 0 <= i < |s| ==> r[i] == LowerChar(s[i])
  {
    if s == [] then [] else [LowerChar(s[0])] + Lower(s[1..])
  }

  /** Lower-casing keeps white space where it was. */
  lemma LowerKeepsWhitespace(s: string, i: nat)
    requires i < |s|
    ensures IsWhitespace(Lower(s)[i]) <==> IsWhitespace(s[i])
  {
  }

  /** The UTF-16 code units of one character: two outside the Basic Multilingual Plane, else one. */
  function Utf16Units(c: char): nat {
    if c as int >= 0x10000 then 2 else 1
  }

  /** JavaScript's `s.length`: the number of UTF-16 code units of `s`. */
  function Utf16Length(s: string): (n: nat)
    ensures |s| <= n <= 2 * |s|
  {
    if s == [] then 0 else Utf16Units(s[0]) + Utf16Length(s[1..])
  }

  /** Within the Basic Multilingual Plane, `length` counts characters. */
  lemma {:induction false} Utf16LengthBmp(s: string)
    requires forall i :: 0 <= i < |s| ==> s[i] as int < 0x10000
    ensures Utf16Length(s) == |s|
  {
    if s != [] {
      Utf16LengthBmp(s[1..]);
    }
  }

  /** `s.startsWith(p)`. */
  predicate StartsWith(s: string, p: string) {
    |p| <= |s| && s[..|p|] == p
  }

  /** A string starts with any of its prefixes. */
  lemma PrefixOfAppend(a: string, b: string)
    ensures StartsWith(a + b, a)
  {
    assert (a + b)[..|a|] == a;
  }

  /** `s.includes(q)`: `q` occurs in `s` at some position. */
  predicate Contains(s: string, q: string) {
    StartsWith(s, q) || (s != [] && Contains(s[1..], q))
  }

  /** The decimal digit of `d`. */
  function DigitChar(d: nat): (c: char)
    requires d < 10
    ensures '0' <= c <= '9'
  {
    ('0' as int + d) as char
  }

  /** The decimal representation of `n`, as JavaScript prints a non-negative integer. */
  function NatToString(n: nat): (r: string)
    ensures r != []
    ensures forall i :: 0 <= i < |r| ==> '0' <= r[i] <= '9'
    ensures n >= 10 ==> r[0] != '0'
  {
    if n < 10 then [DigitChar(n)] else NatToString(n / 10) + [DigitChar(n % 10)]
  }

  /** `parts.join(sep)`. */
  function Join(parts: seq<string>, sep: string): (r: string)
    ensures parts == [] ==> r == ""
    ensures |parts| == 1 ==> r == parts[0]
  {
    if parts == [] then ""
    else if |parts| == 1 then parts[0]
    else parts[0] + sep + Join(parts[1..], sep)
  }

  /** The concatenation of `parts`. */
  function Concat(parts: seq<string>): (r: string)
    ensures |parts| == 1 ==> r == parts[0]
  {
    if parts == [] then "" else parts[0] + Concat(parts[1..])
  }

  lemma {:induction false} ConcatAppend(a: seq<string>, b: seq<string>)
    ensures Concat(a + b) == Concat(a) + Concat(b)
  {
    if a == [] {
      assert a + b == b;
    } else {
      assert (a + b)[1..] == a[1..] + b;
      ConcatAppend(a[1..], b);
    }
  }

  /**
   * `s.split(/\s+/)`: the pieces between maximal runs of white space,
   * with an empty first (last) piece when `s` starts (ends) with white space.
   */
  function SplitWhitespace(s: string): (r: seq<string>)
    ensures r != []
  {
    SplitFrom(s, "")
  }

  /** Splitting the rest `s` of a string whose current piece so far is `cur`. */
  function SplitFrom(s: string, cur: string): (r: seq<string>)
    ensures r != []
    decreases |s|
  {
    if s == [] then [cur]
    else if IsWhitespace(s[0]) then [cur] + SplitFrom(TrimStart(s), "")
    else SplitFrom(s[1..], cur + [s[0]])
  }

  /** No piece of a split contains white space. */
  lemma {:induction false} SplitPiecesHaveNoWhitespace(s: string, cur: string)
    requires NoWhitespace(cur)
    ensures forall p :: p in SplitFrom(s, cur) ==> NoWhitespace(p)
    decreases |s|
  {
    if s == [] {
    } else if IsWhitespace(s[0]) {
      SplitPiecesHaveNoWhitespace(TrimStart(s), "");
    } else {
      SplitPiecesHaveNoWhitespace(s[1..], cur + [s[0]]);
    }
  }

  /** Every character of a split piece comes from the string that was split. */
  lemma {:induction false} SplitPiecesComeFromInput(s: string, cur: string, p: string, c: char)
    requires p in SplitFrom(s, cur) && c in p
    ensures c in cur || c in s
    decreases |s|
  {
    if s == [] {
    } else if IsWhitespace(s[0]) {
      var t := TrimStart(s);
      if p != cur {
        SplitPiecesComeFromInput(t, "", p, c);
        assert c in t;
        var k :| 0 <= k < |t| && t[k] == c;
        assert s[|s| - |t| + k] == c;
      }
    } else {
      SplitPiecesComeFromInput(s[1..], cur + [s[0]], p, c);
      if c in cur + [s[0]] {
        if c !in cur {
          assert c == s[0];
        }
      } else {
        assert c in s[1..];
      }
    }
  }
}
