/** The check `LegoCards._check_factory_statement` applies to an observable before
    handing it to the RooFit workspace factory: is it of the form `name[lo,hi]`?

    The source strips all whitespace and then asks Python's `re.match` whether the
    stripped text starts with `\w+ \[ ([0-9.]+,?){0,2} \]` (the `\s*` parts of the
    pattern can match nothing once the whitespace is gone). The match is modelled by
    a direct matcher, `FactoryMatch`, and the regular expression's own meaning, with
    its backtracking over the counted group, by the predicate `Reps`. */
module FactoryStatement {
  import opened Text
  import opened Values

  const ObservableType := "observable"

  // ---------------------------------------------------------------------------
  // Character classes of the pattern
  // ---------------------------------------------------------------------------

  /** Python 2's `\w` on a byte string: letters, digits and the underscore. */
  predicate IsWordChar(c: char) {
    ('a' <= c <= 'z') || ('A' <= c <= 'Z') || ('0' <= c <= '9') || c == '_'
  }

  /** The class `[0-9.]`. */
  predicate IsValueChar(c: char) {
    ('0' <= c <= '9') || c == '.'
  }

  /** A character the counted group can consume: `[0-9.]` or the comma. */
  predicate IsValuesChar(c: char) {
    IsValueChar(c) || c == ','
  }

  /** Text matched by `\w+`. */
  predicate IsName(w: string) {
    w != [] && forall x :: 0 <= x < |w| ==> IsWordChar(w[x])
  }

  /** Text matched by `[0-9.]+`. */
  predicate IsNumber(d: string) {
    d != [] && forall x :: 0 <= x < |d| ==> IsValueChar(d[x])
  }

  predicate ValuesText(v: string) {
    forall x :: 0 <= x < |v| ==> IsValuesChar(v[x])
  }

  /** `v` matches `([0-9.]+,?){0,k}` as a whole: empty, or a number, an optional
      comma, and a match of at most `k - 1` further repetitions. Every way of cutting
      the numbers is allowed, as the regular expression engine backtracks over them. */
  predicate Reps(v: string, k: nat)
    decreases k
  {
    v == [] ||
    (k > 0 &&
     exists i | 1 <= i <= |v| ::
       IsNumber(v[..i]) &&
       (Reps(v[i..], k - 1) || (i < |v| && v[i] == ',' && Reps(v[i + 1..], k - 1))))
  }

  // ---------------------------------------------------------------------------
  // The matcher
  // ---------------------------------------------------------------------------

  /** Length of the leading run of word characters. */
  function NameLength(s: string): (n: nat)
    ensures n <= |s|
    ensures forall x :: 0 <= x < n ==> IsWordChar(s[x])
    ensures n < |s| ==> !IsWordChar(s[n])
  {
    if s == [] || !IsWordChar(s[0]) then 0 else 1 + NameLength(s[1..])
  }

  /** The first position from `k` on that the counted group cannot consume. */
  function ValuesEnd(s: string, k: nat): (j: nat)
    requires k <= |s|
    ensures k <= j <= |s|
    ensures forall x :: k <= x < j ==> IsValuesChar(s[x])
    ensures j < |s| ==> !IsValuesChar(s[j])
    decreases |s| - k
  {
    if k == |s| || !IsValuesChar(s[k]) then k else ValuesEnd(s, k + 1)
  }

  /** `re.match` of the factory pattern on whitespace-free text: the name and the
      text of the counted group (`vals`) when the text starts with a match. */
  function FactoryMatch(s: string): (r: Option<(string, string)>)
    ensures r.Some? ==>
              IsName(r.value.0) && Reps(r.value.1, 2) &&
              StartsWith(s, r.value.0 + "[" + r.value.1 + "]")
  {
    var n := NameLength(s);
    if n == 0 || n == |s| || s[n] != '[' then None
    else
      var j := ValuesEnd(s, n + 1);
      if j == |s| || s[j] != ']' || !Reps(s[n + 1..j], 2) then None
      else
        BracketSlice(s, n, j);
        Some((s[..n], s[n + 1..j]))
  }

  /** The check as written: a non-observable statement comes back untouched; an
      observable one is stripped of whitespace, and when it matches, the name comes
      back with a flag telling whether `vals` splits into exactly two pieces at commas. */
  function CheckFactoryStatement(statement: string, statementType: string): (r: (string, bool))
    ensures statementType != ObservableType ==> r == (statement, false)
    ensures r.1 ==> statementType == ObservableType && IsName(r.0)
    ensures statementType == ObservableType && !IsName(r.0) ==> r == (RemoveWhitespace(statement), false)
  {
    if statementType != ObservableType then (statement, false)
    else
      var s := RemoveWhitespace(statement);
      match FactoryMatch(s)
      case None => (s, false)
      case Some((name, vals)) => (name, |Split(vals, ',')| == 2)
  }

  /** A range in the sense the source's comment gives ("range should be an interval"):
      exactly two comma-separated values, both present. */
  predicate IsInterval(vals: string) {
    var pieces := Split(vals, ',');
    |pieces| == 2 && pieces[1] != []
  }

  /** The check with the flag set only for two values, the corrected form of
      `CheckFactoryStatement`. */
  function CheckFactoryStatementIntended(statement: string, statementType: string): (r: (string, bool))
    ensures statementType != ObservableType ==> r == (statement, false)
    ensures r.1 ==> statementType == ObservableType && IsName(r.0)
    ensures statementType == ObservableType && !IsName(r.0) ==> r == (RemoveWhitespace(statement), false)
  {
    if statementType != ObservableType then (statement, false)
    else
      var s := RemoveWhitespace(statement);
      match FactoryMatch(s)
      case None => (s, false)
      case Some((name, vals)) => (name, IsInterval(vals))
  }

  // ---------------------------------------------------------------------------
  // Counting commas
  // ---------------------------------------------------------------------------

  function Occurrences(s: string, c: char): (n: nat)
    ensures n <= |s|
  {
    if s == [] then 0 else (if s[0] == c then 1 else 0) + Occurrences(s[1..], c)
  }

  lemma {:induction false} OccurrencesAppend(a: string, b: string, c: char)
    ensures Occurrences(a + b, c) == Occurrences(a, c) + Occurrences(b, c)
    decreases |a|
  {
    if a != [] {
      assert (a + b)[0] == a[0];
      assert (a + b)[1..] == a[1..] + b;
      OccurrencesAppend(a[1..], b, c);
    } else {
      assert a + b == b;
    }
  }

  lemma {:induction false} OccurrencesNone(s: string, c: char)
    requires c !in s
    ensures Occurrences(s, c) == 0
    decreases |s|
  {
    if s != [] {
      OccurrencesNone(s[1..], c);
    }
  }

  /** `len(s.split(c))` is one more than the number of `c` in `s`. */
  lemma {:induction false} SplitLength(s: string, c: char)
    ensures |Split(s, c)| == Occurrences(s, c) + 1
    decreases |s|
  {
    if c !in s {
      OccurrencesNone(s, c);
    } else {
      var i := IndexOf(s, c);
      assert s == s[..i] + ([c] + s[i + 1..]);
      OccurrencesAppend(s[..i], [c] + s[i + 1..], c);
      OccurrencesNone(s[..i], c);
      assert ([c] + s[i + 1..])[1..] == s[i + 1..];
      SplitLength(s[i + 1..], c);
    }
  }

  /** The number of repetitions a text over `[0-9.,]` needs: one per comma, and one
      more for a last number that no comma closes. */
  function Needed(v: string): nat {
    Occurrences(v, ',') + (if v != [] && v[|v| - 1] != ',' then 1 else 0)
  }

  lemma NumberHasNoComma(d: string)
    requires IsNumber(d)
    ensures ',' !in d
  {
    forall x | 0 <= x < |d|
      ensures d[x] != ','
    {
      assert IsValueChar(d[x]);
    }
  }

  /** One way the regular expression can consume the first repetition of `v`. */
  lemma RepsCut(v: string, k: nat) returns (i: nat, comma: bool)
    requires v != [] && Reps(v, k)
    ensures k > 0 && 1 <= i <= |v| && IsNumber(v[..i])
    ensures comma ==> i < |v| && v[i] == ',' && Reps(v[i + 1..], k - 1)
    ensures !comma ==> Reps(v[i..], k - 1)
  {
    i :| 1 <= i <= |v| && IsNumber(v[..i]) &&
         (Reps(v[i..], k - 1) || (i < |v| && v[i] == ',' && Reps(v[i + 1..], k - 1)));
    comma := !Reps(v[i..], k - 1);
  }

  lemma NeededAfterNumber(d: string, rest: string)
    requires IsNumber(d)
    ensures Needed(d + rest) == if rest == [] then 1 else Needed(rest)
  {
    NumberHasNoComma(d);
    OccurrencesNone(d, ',');
    OccurrencesAppend(d, rest, ',');
    assert IsValueChar(d[|d| - 1]);
    if rest == [] {
      assert d + rest == d;
    } else {
      assert (d + rest)[|d + rest| - 1] == rest[|rest| - 1];
    }
  }

  lemma NeededAfterComma(d: string, rest: string)
    requires IsNumber(d)
    ensures Needed(d + ([','] + rest)) == if rest == [] then 1 else 1 + Needed(rest)
  {
    NeededAfterNumber(d, [','] + rest);
    OccurrencesAppend([','], rest, ',');
    if rest != [] {
      assert ([','] + rest)[|[','] + rest| - 1] == rest[|rest| - 1];
    }
  }

  /** No way of cutting a text into at most `k` repetitions uses fewer than `Needed`. */
  lemma {:induction false} RepsNeeded(v: string, k: nat)
    requires Reps(v, k)
    ensures Needed(v) <= k
    decreases k
  {
    if v != [] {
      var i, comma := RepsCut(v, k);
      if comma {
        var rest := v[i + 1..];
        assert Needed(v) == (if rest == [] then 1 else 1 + Needed(rest)) by {
          CutAt(v, i, ',');
          NeededAfterComma(v[..i], rest);
        }
        RepsNeeded(rest, k - 1);
      } else {
        var rest := v[i..];
        assert Needed(v) == (if rest == [] then 1 else Needed(rest)) by {
          assert v == v[..i] + rest;
          NeededAfterNumber(v[..i], rest);
        }
        RepsNeeded(rest, k - 1);
      }
    }
  }

  /** Every character of a match of the counted group is in `[0-9.,]`. */
  lemma {:induction false} RepsChars(v: string, k: nat)
    requires Reps(v, k)
    ensures ValuesText(v)
    decreases k
  {
    if v != [] {
      var i, comma := RepsCut(v, k);
      assert ValuesText(v[..i]);
      if !comma {
        RepsChars(v[i..], k - 1);
        ValuesTextAppend(v[..i], v[i..]);
        assert v == v[..i] + v[i..];
      } else {
        RepsChars(v[i + 1..], k - 1);
        ValuesTextAppend([','], v[i + 1..]);
        ValuesTextAppend(v[..i], [','] + v[i + 1..]);
        CutAt(v, i, ',');
      }
    }
  }

  lemma ValuesTextAppend(a: string, b: string)
    requires ValuesText(a) && ValuesText(b)
    ensures ValuesText(a + b)
  {
    assert forall x :: |a| <= x < |a + b| ==> (a + b)[x] == b[x - |a|];
  }

  // ---------------------------------------------------------------------------
  // The shapes the counted group accepts
  // ---------------------------------------------------------------------------

  lemma RepsOne(a: string, k: nat)
    requires IsNumber(a) && k >= 1
    ensures Reps(a, k)
  {
    assert a[..|a|] == a && a[|a|..] == [];
    assert Reps(a[|a|..], k - 1);
  }

  lemma RepsOneComma(a: string, k: nat)
    requires IsNumber(a) && k >= 1
    ensures Reps(a + ",", k)
  {
    var v := a + ",";
    assert v[..|a|] == a && v[|a|] == ',' && v[|a| + 1..] == [];
    assert Reps(v[|a| + 1..], k - 1);
  }

  lemma RepsTwo(a: string, b: string)
    requires IsNumber(a) && IsNumber(b)
    ensures Reps(a + "," + b, 2)
  {
    var v := a + "," + b;
    assert v[..|a|] == a && v[|a|] == ',' && v[|a| + 1..] == b;
    RepsOne(b, 1);
  }

  /** Three numbers do not fit in two repetitions, however they are cut. */
  lemma RepsNotThree(a: string, b: string, c: string)
    requires IsNumber(a) && IsNumber(b) && IsNumber(c)
    ensures !Reps(a + "," + b + "," + c, 2)
  {
    var v := a + "," + b + "," + c;
    NumberHasNoComma(a);
    NumberHasNoComma(b);
    NumberHasNoComma(c);
    OccurrencesNone(a, ',');
    OccurrencesNone(b, ',');
    OccurrencesNone(c, ',');
    OccurrencesAppend(a, ",", ',');
    OccurrencesAppend(a + ",", b, ',');
    OccurrencesAppend(a + "," + b, ",", ',');
    OccurrencesAppend(a + "," + b + ",", c, ',');
    assert Occurrences(",", ',') == 1;
    assert v[|v| - 1] == c[|c| - 1];
    assert IsValueChar(c[|c| - 1]);
    if Reps(v, 2) {
      RepsNeeded(v, 2);
    }
  }

  // ---------------------------------------------------------------------------
  // Splitting the shapes
  // ---------------------------------------------------------------------------

  lemma SplitPair(a: string, b: string)
    requires ',' !in a && ',' !in b
    ensures Split(a + "," + b, ',') == [a, b]
  {
    var s := a + "," + b;
    IndexOfAfter(a, ',', b);
    assert s[..|a|] == a && s[|a| + 1..] == b;
  }

  lemma SplitNumber(a: string)
    requires IsNumber(a)
    ensures Split(a, ',') == [a]
  {
    NumberHasNoComma(a);
  }

  // ---------------------------------------------------------------------------
  // The match on a statement of a known shape
  // ---------------------------------------------------------------------------

  /** On `name[vals]tail` with a name and a text over `[0-9.,]`, the pattern matches
      exactly when `vals` is a match of the counted group, and then it reports that
      name and those values: no other cut of the text can match. */
  lemma FactoryMatchOf(name: string, vals: string, tail: string)
    requires IsName(name) && ValuesText(vals)
    ensures FactoryMatch(name + "[" + vals + "]" + tail) ==
            if Reps(vals, 2) then Some((name, vals)) else None
  {
    var s := name + "[" + vals + "]" + tail;
    var n := |name|;
    var j := n + 1 + |vals|;
    assert s[..n] == name && s[n] == '[' && s[n + 1..j] == vals && s[j] == ']';
    assert forall x :: 0 <= x < n ==> s[x] == name[x];
    assert forall x :: n + 1 <= x < j ==> s[x] == vals[x - n - 1];
    assert NameLength(s) == n;
    assert ValuesEnd(s, n + 1) == j;
  }

  /** A match found by `FactoryMatch` is a match of the pattern at the start of the
      text, and `FactoryMatchOf` shows it is the only one. */
  lemma FactoryMatchStarts(s: string)
    requires FactoryMatch(s).Some?
    ensures var m := FactoryMatch(s).value;
            FactoryMatch(m.0 + "[" + m.1 + "]" + s[|m.0| + |m.1| + 2..]) == FactoryMatch(s)
  {
    var m := FactoryMatch(s).value;
    var p := m.0 + "[" + m.1 + "]";
    assert s == p + s[|p|..];
  }

  // ---------------------------------------------------------------------------
  // Regrouping concatenations
  // ---------------------------------------------------------------------------

  lemma CutAt<T>(v: seq<T>, i: nat, x: T)
    requires i < |v| && v[i] == x
    ensures v == v[..i] + ([x] + v[i + 1..])
    ensures v == v[..i] + [x] + v[i + 1..]
  {
  }

  lemma BracketSlice(s: string, n: nat, j: nat)
    requires n < j < |s| && s[n] == '[' && s[j] == ']'
    ensures s[..j + 1] == s[..n] + "[" + s[n + 1..j] + "]"
  {
    assert s[..j + 1] == s[..n] + [s[n]] + s[n + 1..j] + [s[j]];
  }

  lemma Group2<T>(x: seq<T>, a: seq<T>, b: seq<T>)
    ensures x + a + b == x + (a + b)
  {
  }

  lemma Group3<T>(x: seq<T>, a: seq<T>, b: seq<T>, c: seq<T>)
    ensures x + a + b + c == x + (a + b + c)
  {
  }

  lemma Group5<T>(x: seq<T>, a: seq<T>, b: seq<T>, c: seq<T>, d: seq<T>, e: seq<T>)
    ensures x + a + b + c + d + e == x + (a + b + c + d + e)
  {
  }

  // ---------------------------------------------------------------------------
  // What the check returns
  // ---------------------------------------------------------------------------

  /** On a statement that strips to `name[vals]tail` with `vals` a match of the
      counted group, both forms of the check return the name; they differ only in
      the flag. */
  lemma CheckOf(statement: string, name: string, vals: string, tail: string)
    requires IsName(name) && Reps(vals, 2)
    requires RemoveWhitespace(statement) == name + "[" + vals + "]" + tail
    ensures CheckFactoryStatement(statement, ObservableType) == (name, |Split(vals, ',')| == 2)
    ensures CheckFactoryStatementIntended(statement, ObservableType) == (name, IsInterval(vals))
  {
    RepsChars(vals, 2);
    FactoryMatchOf(name, vals, tail);
  }

  /** `name[lo,hi]` is a range. */
  lemma ObservableRange(statement: string, name: string, lo: string, hi: string, tail: string)
    requires IsName(name) && IsNumber(lo) && IsNumber(hi)
    requires RemoveWhitespace(statement) == name + "[" + lo + "," + hi + "]" + tail
    ensures CheckFactoryStatement(statement, ObservableType) == (name, true)
  {
    var vals := lo + "," + hi;
    assert Reps(vals, 2) by { RepsTwo(lo, hi); }
    assert Split(vals, ',') == [lo, hi] by {
      NumberHasNoComma(lo);
      NumberHasNoComma(hi);
      SplitPair(lo, hi);
    }
    Group3(name + "[", lo, ",", hi);
    CheckOf(statement, name, vals, tail);
  }

  /** `name[value]` is a factory statement but not a range. */
  lemma ObservableSingleValue(statement: string, name: string, value: string, tail: string)
    requires IsName(name) && IsNumber(value)
    requires RemoveWhitespace(statement) == name + "[" + value + "]" + tail
    ensures CheckFactoryStatement(statement, ObservableType) == (name, false)
  {
    assert Reps(value, 2) by { RepsOne(value, 2); }
    assert Split(value, ',') == [value] by { SplitNumber(value); }
    CheckOf(statement, name, value, tail);
  }

  /** `name[]` is a factory statement but not a range. */
  lemma ObservableNoValue(statement: string, name: string, tail: string)
    requires IsName(name)
    requires RemoveWhitespace(statement) == name + "[]" + tail
    ensures CheckFactoryStatement(statement, ObservableType) == (name, false)
  {
    assert name + "[]" + tail == name + "[" + "" + "]" + tail;
    CheckOf(statement, name, "", tail);
  }

  /** Three values do not match the pattern at all: the stripped statement is taken
      for a branch name. */
  lemma ObservableThreeValues(statement: string, name: string, a: string, b: string, c: string, tail: string)
    requires IsName(name) && IsNumber(a) && IsNumber(b) && IsNumber(c)
    requires RemoveWhitespace(statement) == name + "[" + a + "," + b + "," + c + "]" + tail
    ensures CheckFactoryStatement(statement, ObservableType) == (RemoveWhitespace(statement), false)
  {
    var vals := a + "," + b + "," + c;
    assert ValuesText(vals) by {
      assert forall x :: 0 <= x < |a| ==> vals[x] == a[x];
      assert forall x :: |a| + 1 <= x < |a| + 1 + |b| ==> vals[x] == b[x - |a| - 1];
      assert forall x :: |a| + |b| + 2 <= x < |vals| ==> vals[x] == c[x - |a| - |b| - 2];
    }
    assert !Reps(vals, 2) by { RepsNotThree(a, b, c); }
    assert FactoryMatch(RemoveWhitespace(statement)) == None by {
      Group5(name + "[", a, ",", b, ",", c);
      FactoryMatchOf(name, vals, tail);
    }
  }

  /** Text without an opening bracket is taken for a branch name, stripped. */
  lemma ObservableBranchName(statement: string)
    requires '[' !in RemoveWhitespace(statement)
    ensures CheckFactoryStatement(statement, ObservableType) == (RemoveWhitespace(statement), false)
  {
  }

  /** A match of the counted group with one comma is a number, the comma, and a
      number or nothing. */
  lemma TwoPieces(vals: string) returns (lo: string, hi: string)
    requires Reps(vals, 2) && |Split(vals, ',')| == 2
    ensures vals == lo + "," + hi && Split(vals, ',') == [lo, hi]
    ensures IsNumber(lo) && (hi == [] || IsNumber(hi))
  {
    RepsChars(vals, 2);
    var i := IndexOf(vals, ',');
    lo, hi := vals[..i], vals[i + 1..];
    assert vals == lo + "," + hi by {
      CutAt(vals, i, ',');
    }
    assert Split(vals, ',') == [lo, hi] by {
      assert Split(vals, ',') == [lo] + Split(hi, ',');
      assert ',' !in hi;
    }
    assert lo != [] by {
      var k, comma := RepsCut(vals, 2);
      assert IsValueChar(vals[..k][0]);
    }
    assert forall x :: 0 <= x < |lo| ==> IsValueChar(lo[x]) by {
      assert forall x :: 0 <= x < |lo| ==> lo[x] == vals[x];
    }
    assert forall x :: 0 <= x < |hi| ==> IsValueChar(hi[x]) by {
      assert forall x :: 0 <= x < |hi| ==> hi[x] == vals[x + i + 1];
    }
  }

  /** What a set flag means: the stripped statement starts with `name[lo,hi]` where
      `lo` is a number and `hi` is a number or nothing. */
  lemma RangeFlagShape(statement: string, statementType: string) returns (lo: string, hi: string)
    requires CheckFactoryStatement(statement, statementType).1
    ensures statementType == ObservableType
    ensures IsNumber(lo) && (hi == [] || IsNumber(hi))
    ensures StartsWith(RemoveWhitespace(statement),
                       CheckFactoryStatement(statement, statementType).0 + "[" + lo + "," + hi + "]")
  {
    var m := FactoryMatch(RemoveWhitespace(statement)).value;
    lo, hi := TwoPieces(m.1);
    assert m.0 + "[" + m.1 + "]" == m.0 + "[" + lo + "," + hi + "]" by {
      Group3(m.0 + "[", lo, ",", hi);
    }
  }

  /** The trailing-comma case: `name[lo,]` gets the range flag, although the comment
      next to the test says the flag stands for an interval. */
  lemma TrailingCommaIsRange(statement: string, name: string, lo: string, tail: string)
    requires IsName(name) && IsNumber(lo)
    requires RemoveWhitespace(statement) == name + "[" + lo + "," + "]" + tail
    ensures CheckFactoryStatement(statement, ObservableType) == (name, true)
  {
    var vals := lo + ",";
    assert Reps(vals, 2) by { RepsOneComma(lo, 2); }
    assert Split(vals, ',') == [lo, ""] by {
      NumberHasNoComma(lo);
      SplitPair(lo, "");
      assert lo + "," + "" == vals;
    }
    Group2(name + "[", lo, ",");
    CheckOf(statement, name, vals, tail);
  }

  // ---------------------------------------------------------------------------
  // The corrected check
  // ---------------------------------------------------------------------------

  /** The corrected check still accepts `name[lo,hi]` as a range. */
  lemma IntendedRange(statement: string, name: string, lo: string, hi: string, tail: string)
    requires IsName(name) && IsNumber(lo) && IsNumber(hi)
    requires RemoveWhitespace(statement) == name + "[" + lo + "," + hi + "]" + tail
    ensures CheckFactoryStatementIntended(statement, ObservableType) == (name, true)
  {
    var vals := lo + "," + hi;
    assert Reps(vals, 2) by { RepsTwo(lo, hi); }
    assert Split(vals, ',') == [lo, hi] by {
      NumberHasNoComma(lo);
      NumberHasNoComma(hi);
      SplitPair(lo, hi);
    }
    Group3(name + "[", lo, ",", hi);
    CheckOf(statement, name, vals, tail);
  }

  /** The corrected check does not take `name[lo,]` for a range. */
  lemma IntendedTrailingComma(statement: string, name: string, lo: string, tail: string)
    requires IsName(name) && IsNumber(lo)
    requires RemoveWhitespace(statement) == name + "[" + lo + "," + "]" + tail
    ensures CheckFactoryStatementIntended(statement, ObservableType) == (name, false)
  {
    var vals := lo + ",";
    assert Reps(vals, 2) by { RepsOneComma(lo, 2); }
    assert Split(vals, ',') == [lo, ""] by {
      NumberHasNoComma(lo);
      SplitPair(lo, "");
      assert lo + "," + "" == vals;
    }
    Group2(name + "[", lo, ",");
    CheckOf(statement, name, vals, tail);
  }

  /** The corrected flag is set exactly for two numbers. */
  lemma IntendedFlagShape(statement: string, statementType: string) returns (lo: string, hi: string)
    requires CheckFactoryStatementIntended(statement, statementType).1
    ensures statementType == ObservableType
    ensures IsNumber(lo) && IsNumber(hi)
    ensures StartsWith(RemoveWhitespace(statement),
                       CheckFactoryStatementIntended(statement, statementType).0 + "[" + lo + "," + hi + "]")
  {
    var m := FactoryMatch(RemoveWhitespace(statement)).value;
    lo, hi := TwoPieces(m.1);
    assert m.0 + "[" + m.1 + "]" == m.0 + "[" + lo + "," + hi + "]" by {
      Group3(m.0 + "[", lo, ",", hi);
    }
  }
}
