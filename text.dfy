/** String operations of the Python runtime that the configuration engine and the
    datacard builders rely on: ordering and sorting of strings, `join`, `split`,
    whitespace handling, `lower`, `startswith`, `in`, `replace`, `lstrip`/`rstrip`
    and `str` of an integer. Python 2 byte strings are modelled as `seq<char>`. */
module Text {

  // ---------------------------------------------------------------------------
  // Ordering and sorting (Python's `<` on strings and the builtin `sorted`)
  // ---------------------------------------------------------------------------

  /** Python's `a < b` on strings: lexicographic by character, a proper prefix first. */
  predicate LexLess(a: string, b: string)
    decreases |a|
  {
    if a == [] then b != []
    else b != [] && (a[0] < b[0] || (a[0] == b[0] && LexLess(a[1..], b[1..])))
  }

  predicate LexLe(a: string, b: string) {
    a == b || LexLess(a, b)
  }

  lemma {:induction false} LexLessAsymmetric(a: string, b: string)
    requires LexLess(a, b)
    ensures !LexLess(b, a) && a != b
    decreases |a|
  {
    if a != [] && b != [] && a[0] == b[0] {
      LexLessAsymmetric(a[1..], b[1..]);
    }
  }

  lemma {:induction false} LexLessTransitive(a: string, b: string, c: string)
    requires LexLess(a, b) && LexLess(b, c)
    ensures LexLess(a, c)
    decreases |a|
  {
    if a != [] && a[0] == b[0] && b[0] == c[0] {
      LexLessTransitive(a[1..], b[1..], c[1..]);
    }
  }

  lemma {:induction false} LexLessTotal(a: string, b: string)
    requires a != b
    ensures LexLess(a, b) || LexLess(b, a)
    decreases |a|
  {
    if a != [] && b != [] && a[0] == b[0] {
      assert a[1..] != b[1..];
      LexLessTotal(a[1..], b[1..]);
    }
  }

  lemma LexLeTransitive(a: string, b: string, c: string)
    requires LexLe(a, b) && LexLe(b, c)
    ensures LexLe(a, c)
  {
    if a != b && b != c {
      LexLessTransitive(a, b, c);
    }
  }

  /** Non-decreasing order, as produced by `sorted`. */
  predicate Sorted(s: seq<string>) {
    forall i, j :: 0 <= i < j < |s| ==> LexLe(s[i], s[j])
  }

  /** Increasing order: sorted and without repetitions. */
  predicate StrictlySorted(s: seq<string>) {
    forall i, j :: 0 <= i < j < |s| ==> LexLess(s[i], s[j])
  }

  predicate IsMin(m: string, s: set<string>) {
    m in s && forall x | x in s :: LexLe(m, x)
  }

  lemma {:induction false} MinExists(s: set<string>)
    requires s != {}
    ensures exists m :: IsMin(m, s)
    decreases |s|
  {
    var y :| y in s;
    if s == {y} {
      assert IsMin(y, s);
    } else {
      MinExists(s - {y});
      var m :| IsMin(m, s - {y});
      if LexLe(m, y) {
        forall x | x in s ensures LexLe(m, x) {
          if x != y { assert x in s - {y}; }
        }
        assert IsMin(m, s);
      } else {
        LexLessTotal(m, y);
        forall x | x in s ensures LexLe(y, x) {
          if x != y { assert x in s - {y}; LexLeTransitive(y, m, x); }
        }
        assert IsMin(y, s);
      }
    }
  }

  lemma MinUnique(s: set<string>)
    ensures forall a, b :: IsMin(a, s) && IsMin(b, s) ==> a == b
  {
    forall a, b | IsMin(a, s) && IsMin(b, s) ensures a == b {
      if a != b { LexLessAsymmetric(a, b); }
    }
  }

  /** The elements of a set of strings in increasing order; stands for Python's
      `sorted(d.keys())`, and for the order in which the model visits a dict's keys. */
  function SortedOf(s: set<string>): (r: seq<string>)
    ensures StrictlySorted(r)
    ensures |r| == |s|
    ensures forall x :: x in r <==> x in s
    decreases |s|
  {
    if s == {} then []
    else
      MinExists(s);
      MinUnique(s);
      var m :| IsMin(m, s);
      var rest := SortedOf(s - {m});
      assert forall j :: 0 <= j < |rest| ==> LexLess(m, rest[j]) by {
        forall j | 0 <= j < |rest| ensures LexLess(m, rest[j]) {
          assert rest[j] in s - {m};
        }
      }
      [m] + rest
  }

  /** The least element of a non-empty set of strings: the key a loop over a dict visits
      first (the model visits keys in increasing order). */
  function Least(s: set<string>): (m: string)
    requires s != {}
    ensures IsMin(m, s)
  {
    MinExists(s);
    MinUnique(s);
    var m :| IsMin(m, s);
    m
  }

  /** Places `x` into a sorted sequence (one step of insertion sort). */
  function InsertSorted(x: string, s: seq<string>): (r: seq<string>)
    requires Sorted(s)
    ensures Sorted(r)
    ensures multiset(r) == multiset(s) + multiset{x}
  {
    if s == [] then [x]
    else if LexLe(x, s[0]) then
      assert forall j :: 0 <= j < |s| ==> LexLe(x, s[j]) by {
        forall j | 0 <= j < |s| ensures LexLe(x, s[j]) {
          if j > 0 { LexLeTransitive(x, s[0], s[j]); }
        }
      }
      [x] + s
    else
      LexLessTotal(x, s[0]);
      var rest := InsertSorted(x, s[1..]);
      assert s == [s[0]] + s[1..];
      assert forall j :: 0 <= j < |rest| ==> LexLe(s[0], rest[j]) by {
        forall j | 0 <= j < |rest| ensures LexLe(s[0], rest[j]) {
          assert rest[j] in multiset(rest);
          assert rest[j] == x || rest[j] in s[1..];
        }
      }
      [s[0]] + rest
  }

  /** Python's builtin `sorted` on a list of strings. */
  function SortStrings(s: seq<string>): (r: seq<string>)
    ensures Sorted(r)
    ensures multiset(r) == multiset(s)
  {
    if s == [] then []
    else
      assert s == [s[0]] + s[1..];
      InsertSorted(s[0], SortStrings(s[1..]))
  }

  lemma SortedHeadLeast(a: seq<string>, x: string)
    requires Sorted(a) && x in a
    ensures LexLe(a[0], x)
  {
    var i :| 0 <= i < |a| && a[i] == x;
    if i > 0 { assert LexLe(a[0], a[i]); }
  }

  lemma MultisetTail(a: seq<string>)
    requires a != []
    ensures multiset(a[1..]) == multiset(a) - multiset{a[0]}
  {
    assert a == [a[0]] + a[1..];
  }

  /** A sorted sequence is determined by its multiset of elements. */
  lemma {:induction false} SortedUnique(a: seq<string>, b: seq<string>)
    requires Sorted(a) && Sorted(b)
    requires multiset(a) == multiset(b)
    ensures a == b
    decreases |a|
  {
    if a != [] {
      assert a[0] in multiset(b);
      assert b[0] in multiset(a);
      SortedHeadLeast(b, a[0]);
      SortedHeadLeast(a, b[0]);
      if a[0] != b[0] { LexLessAsymmetric(a[0], b[0]); }
      MultisetTail(a);
      MultisetTail(b);
      SortedUnique(a[1..], b[1..]);
      assert a == [a[0]] + a[1..] && b == [b[0]] + b[1..];
    }
  }

  lemma StrictlySortedIsSorted(s: seq<string>)
    requires StrictlySorted(s)
    ensures Sorted(s)
  {
  }

  /** `sorted` of a list without repetitions is the increasing list of its elements. */
  lemma SortDistinct(s: seq<string>, keys: set<string>)
    requires forall i, j :: 0 <= i < j < |s| ==> s[i] != s[j]
    requires forall x :: x in s <==> x in keys
    ensures SortStrings(s) == SortedOf(keys)
  {
    var r := SortStrings(s);
    var t := SortedOf(keys);
    DistinctMultiset(s, keys);
    StrictlySortedDistinct(t);
    DistinctMultiset(t, keys);
    SortedUnique(r, t);
  }

  lemma {:induction false} DistinctMultiset(s: seq<string>, keys: set<string>)
    requires forall i, j :: 0 <= i < j < |s| ==> s[i] != s[j]
    requires forall x :: x in s <==> x in keys
    ensures multiset(s) == multiset(keys)
    decreases |s|
  {
    if s != [] {
      assert s == [s[0]] + s[1..];
      assert s[0] !in s[1..];
      DistinctMultiset(s[1..], keys - {s[0]});
    } else {
      assert keys == {};
    }
  }

  lemma StrictlySortedDistinct(s: seq<string>)
    requires StrictlySorted(s)
    ensures forall i, j :: 0 <= i < j < |s| ==> s[i] != s[j]
  {
    forall i, j | 0 <= i < j < |s| ensures s[i] != s[j] {
      LexLessAsymmetric(s[i], s[j]);
    }
  }

  // ---------------------------------------------------------------------------
  // join and split
  // ---------------------------------------------------------------------------

  /** `sep.join(xs)` (also `string.join(xs, sep)`). */
  function Join(sep: string, xs: seq<string>): string
  {
    if |xs| == 0 then ""
    else if |xs| == 1 then xs[0]
    else xs[0] + sep + Join(sep, xs[1..])
  }

  /** Joining one more piece adds the separator and the piece at the end. */
  lemma {:induction false} JoinSnoc(sep: string, xs: seq<string>, x: string)
    ensures Join(sep, xs + [x]) == if xs == [] then x else Join(sep, xs) + sep + x
    decreases |xs|
  {
    if |xs| == 1 {
      assert (xs + [x])[1..] == [x];
    } else if |xs| > 1 {
      assert (xs + [x])[1..] == xs[1..] + [x];
      JoinSnoc(sep, xs[1..], x);
    }
  }

  /** Index of the first occurrence of `c` in `s`. */
  function IndexOf(s: string, c: char): (i: nat)
    requires c in s
    ensures i < |s| && s[i] == c && c !in s[..i]
  {
    if s[0] == c then 0 else IndexOf(s[1..], c) + 1
  }

  /** `s.split(c)` for a one-character separator: always at least one piece, the first
      of which is the text before the first separator (the whole text when there is none). */
  function Split(s: string, c: char): (pieces: seq<string>)
    ensures |pieces| >= 1
    ensures forall i :: 0 <= i < |pieces| ==> c !in pieces[i]
    ensures c !in s ==> pieces[0] == s
    ensures c in s ==> pieces[0] == s[..IndexOf(s, c)]
    decreases |s|
  {
    if c !in s then [s]
    else
      var i := IndexOf(s, c);
      [s[..i]] + Split(s[i + 1..], c)
  }

  /** Splitting and joining back with the same separator gives the input back. */
  lemma {:induction false} JoinSplit(s: string, c: char)
    ensures Join([c], Split(s, c)) == s
    decreases |s|
  {
    if c in s {
      var i := IndexOf(s, c);
      var rest := Split(s[i + 1..], c);
      assert Split(s, c) == [s[..i]] + rest;
      assert Join([c], rest) == s[i + 1..] by {
        JoinSplit(s[i + 1..], c);
      }
      assert Join([c], [s[..i]] + rest) == s[..i] + [c] + Join([c], rest) by {
        JoinCons([c], s[..i], rest);
      }
      assert s == s[..i] + [c] + s[i + 1..];
    }
  }

  lemma JoinCons(sep: string, x: string, xs: seq<string>)
    requires xs != []
    ensures Join(sep, [x] + xs) == x + sep + Join(sep, xs)
  {
    assert ([x] + xs)[1..] == xs;
  }

  /** The first occurrence of `c` in `a + [c] + b` is the one after `a` when `a` has none. */
  lemma {:induction false} IndexOfAfter(a: string, c: char, b: string)
    requires c !in a
    ensures IndexOf(a + [c] + b, c) == |a|
    decreases |a|
  {
    if a != [] {
      assert (a + [c] + b)[1..] == a[1..] + [c] + b;
      IndexOfAfter(a[1..], c, b);
    }
  }

  /** Joining pieces free of the separator and splitting again gives the pieces back. */
  lemma {:induction false} SplitJoin(xs: seq<string>, c: char)
    requires |xs| >= 1
    requires forall i :: 0 <= i < |xs| ==> c !in xs[i]
    ensures Split(Join([c], xs), c) == xs
    decreases |xs|
  {
    if |xs| > 1 {
      var rest := Join([c], xs[1..]);
      var s := Join([c], xs);
      assert s == xs[0] + [c] + rest;
      IndexOfAfter(xs[0], c, rest);
      assert s[..|xs[0]|] == xs[0];
      assert s[|xs[0]| + 1..] == rest;
      SplitJoin(xs[1..], c);
    }
  }

  // ---------------------------------------------------------------------------
  // Whitespace, case, prefixes, substrings
  // ---------------------------------------------------------------------------

  /** The characters of Python 2's `\s` and `str.isspace()`. */
  predicate IsSpace(c: char) {
    c == ' ' || c == '\t' || c == '\n' || c == '\r' || c == '\U{b}' || c == '\U{c}'
  }

  /** `re.sub(r'\s', '', s)`. */
  function RemoveWhitespace(s: string): (r: string)
    ensures forall i :: 0 <= i < |r| ==> !IsSpace(r[i])
    ensures |r| <= |s|
  {
    if s == [] then []
    else if IsSpace(s[0]) then RemoveWhitespace(s[1..])
    else [s[0]] + RemoveWhitespace(s[1..])
  }

  /** Removing whitespace keeps every other character, in order. */
  lemma {:induction false} RemoveWhitespaceKeeps(s: string)
    requires forall i :: 0 <= i < |s| ==> !IsSpace(s[i])
    ensures RemoveWhitespace(s) == s
    decreases |s|
  {
    if s != [] {
      RemoveWhitespaceKeeps(s[1..]);
      assert s == [s[0]] + s[1..];
    }
  }

  /** Length of the leading run of non-space characters. */
  function RunLength(s: string): (n: nat)
    ensures n <= |s|
    ensures forall i :: 0 <= i < n ==> !IsSpace(s[i])
    ensures n < |s| ==> IsSpace(s[n])
  {
    if s == [] || IsSpace(s[0]) then 0 else RunLength(s[1..]) + 1
  }

  /** `s.split()` with no argument: the maximal runs of non-space characters. */
  function Words(s: string): (ws: seq<string>)
    ensures forall i :: 0 <= i < |ws| ==> ws[i] != [] && forall j :: 0 <= j < |ws[i]| ==> !IsSpace(ws[i][j])
    decreases |s|
  {
    if s == [] then []
    else if IsSpace(s[0]) then Words(s[1..])
    else
      var n := RunLength(s);
      [s[..n]] + Words(s[n..])
  }

  /** A run of non-space characters is one word. */
  lemma WordsOfWord(w: string)
    requires w != [] && forall i :: 0 <= i < |w| ==> !IsSpace(w[i])
    ensures Words(w) == [w]
  {
    RunLengthOfWord(w);
    assert w[..|w|] == w;
  }

  lemma {:induction false} RunLengthOfWord(w: string)
    requires forall i :: 0 <= i < |w| ==> !IsSpace(w[i])
    ensures RunLength(w) == |w|
    decreases |w|
  {
    if w != [] {
      RunLengthOfWord(w[1..]);
    }
  }

  /** Python 2 `str.lower()` in the C locale: only ASCII letters change. */
  function LowerChar(c: char): char {
    if 'A' <= c <= 'Z' then (c as int - 'A' as int + 'a' as int) as char else c
  }

  function Lower(s: string): (r: string)
    ensures |r| == |s|
    ensures forall i :: 0 <= i < |s| ==> r[i] == LowerChar(s[i])
  {
    if s == [] then [] else [LowerChar(s[0])] + Lower(s[1..])
  }

  /** Lower-casing leaves a string without capital letters as it is. */
  lemma LowerNoCapitals(s: string)
    requires forall i :: 0 <= i < |s| ==> !('A' <= s[i] <= 'Z')
    ensures Lower(s) == s
  {
  }

  /** `s.startswith(p)`. */
  predicate StartsWith(s: string, p: string) {
    |p| <= |s| && s[..|p|] == p
  }

  /** `sub in s` on two strings. */
  predicate Contains(s: string, sub: string)
    decreases |s|
  {
    StartsWith(s, sub) || (s != [] && Contains(s[1..], sub))
  }

  /** Every string contains itself. */
  lemma ContainsSelf(s: string)
    ensures Contains(s, s)
  {
    assert s[..|s|] == s;
  }

  /** A string cannot contain a non-empty string whose first character it lacks. */
  lemma {:induction false} ContainsNeedsFirst(s: string, sub: string)
    requires sub != [] && sub[0] !in s
    ensures !Contains(s, sub)
    decreases |s|
  {
    if s != [] {
      assert s[0] != sub[0];
      ContainsNeedsFirst(s[1..], sub);
    }
  }

  /** `sub` occurs in `s` at position `i`. */
  predicate OccursAt(s: string, sub: string, i: int) {
    0 <= i <= |s| - |sub| && s[i..i + |sub|] == sub
  }

  /** `Contains` is the existence of a position where `sub` occurs. */
  lemma {:induction false} ContainsAt(s: string, sub: string)
    ensures Contains(s, sub) <==> exists i :: OccursAt(s, sub, i)
    decreases |s|
  {
    if StartsWith(s, sub) {
      assert OccursAt(s, sub, 0);
    } else if s != [] {
      ContainsAt(s[1..], sub);
      if Contains(s[1..], sub) {
        var i :| OccursAt(s[1..], sub, i);
        assert OccursAt(s, sub, i + 1);
      }
      if exists i :: OccursAt(s, sub, i) {
        var i :| OccursAt(s, sub, i);
        assert i != 0;
        assert OccursAt(s[1..], sub, i - 1);
      }
    }
  }

  /** `s.lstrip(chars)`: drop leading characters that belong to the set `chars`. */
  function LStrip(s: string, chars: set<char>): (r: string)
    ensures |r| <= |s| && r == s[|s| - |r|..]
    ensures r != [] ==> r[0] !in chars
    ensures forall i :: 0 <= i < |s| - |r| ==> s[i] in chars
  {
    if s != [] && s[0] in chars then LStrip(s[1..], chars) else s
  }

  /** `s.rstrip(chars)`: drop trailing characters that belong to the set `chars`. */
  function RStrip(s: string, chars: set<char>): (r: string)
    ensures |r| <= |s| && r == s[..|r|]
    ensures r != [] ==> r[|r| - 1] !in chars
    ensures forall i :: |r| <= i < |s| ==> s[i] in chars
  {
    if s != [] && s[|s| - 1] in chars then RStrip(s[..|s| - 1], chars) else s
  }

  /** `s.replace(pat, rep)` for a non-empty `pat`: every occurrence, scanning left to right. */
  function ReplaceAll(s: string, pat: string, rep: string): (r: string)
    requires pat != []
    ensures !Contains(s, pat) ==> r == s
    decreases |s|
  {
    if |s| < |pat| then s
    else if s[..|pat|] == pat then rep + ReplaceAll(s[|pat|..], pat, rep)
    else [s[0]] + ReplaceAll(s[1..], pat, rep)
  }

  // ---------------------------------------------------------------------------
  // str() of an integer
  // ---------------------------------------------------------------------------

  function DigitChar(d: nat): char
    requires d < 10
  {
    "0123456789"[d]
  }

  predicate IsDigit(c: char) {
    '0' <= c <= '9'
  }

  function NatToString(n: nat): (r: string)
    ensures r != []
    ensures forall i :: 0 <= i < |r| ==> IsDigit(r[i])
  {
    if n < 10 then [DigitChar(n)] else NatToString(n / 10) + [DigitChar(n % 10)]
  }

  /** Python's `str(i)` for an integer. */
  function IntToString(i: int): (r: string)
    ensures r != []
    ensures forall k :: 0 <= k < |r| ==> IsDigit(r[k]) || (k == 0 && r[k] == '-')
  {
    if i < 0 then "-" + NatToString(-i) else NatToString(i)
  }

  function DigitValue(c: char): nat
    requires IsDigit(c)
  {
    c as int - '0' as int
  }

  /** Reads back a string of decimal digits. */
  function ParseNat(s: string): nat
    requires forall i :: 0 <= i < |s| ==> IsDigit(s[i])
  {
    if s == [] then 0 else ParseNat(s[..|s| - 1]) * 10 + DigitValue(s[|s| - 1])
  }

  /** Reads back what `IntToString` writes. */
  function ParseInt(s: string): int
    requires s != []
    requires forall k :: 0 <= k < |s| ==> IsDigit(s[k]) || (k == 0 && s[k] == '-')
  {
    if s[0] == '-' then 0 - ParseNat(s[1..]) else ParseNat(s) as int
  }

  lemma {:induction false} NatToStringRoundTrip(n: nat)
    ensures ParseNat(NatToString(n)) == n
    decreases n
  {
    if n >= 10 {
      NatToStringRoundTrip(n / 10);
      var s := NatToString(n);
      assert s[..|s| - 1] == NatToString(n / 10);
    }
  }

  /** `str(i)` loses nothing: the decimal text reads back as `i`. */
  lemma IntToStringRoundTrip(i: int)
    ensures ParseInt(IntToString(i)) == i
  {
    if i < 0 {
      NatToStringRoundTrip(-i);
      assert IntToString(i)[1..] == NatToString(-i);
    } else {
      NatToStringRoundTrip(i);
    }
  }
}
