/** The text side of the `INSERT(...)` keyword: how a configuration string is cut into
    text and references (`re.split` and `re.findall` with `INSERT\((.+?)\)`), how a
    reference nested in another is detected (`INSERT\([^()]*?\)` replaced by `XXX`,
    then searched again), and when the referenced value is substituted as it is
    rather than as text. */
module InsertSyntax {
  import opened Text
  import opened Values

  const InsertOpen: string := "INSERT("

  // ---------------------------------------------------------------------------
  // INSERT\((.+?)\)
  // ---------------------------------------------------------------------------

  /** The first `)` at or after `k`, if no newline comes first (`.` does not match a
      newline). */
  function CloseAt(s: string, k: nat): (r: Option<nat>)
    requires k <= |s|
    ensures r.Some? ==> k <= r.value < |s| && s[r.value] == ')'
    ensures r.Some? ==> forall m :: k <= m < r.value ==> s[m] != ')' && s[m] != '\n'
    decreases |s| - k
  {
    if k == |s| then None
    else if s[k] == ')' then Some(k)
    else if s[k] == '\n' then None
    else CloseAt(s, k + 1)
  }

  /** The closing `)` of a match of `INSERT\((.+?)\)` that starts at `p`: the group
      takes at least one character and then stops at the first `)`. */
  function MatchAt(s: string, p: nat): (r: Option<nat>)
    requires p <= |s|
    ensures r.Some? ==> p + 8 <= r.value < |s| && s[p..p + 7] == InsertOpen && s[r.value] == ')'
    ensures r.Some? ==> s[p + 7] != '\n'
    ensures r.Some? ==> forall m :: p + 8 <= m < r.value ==> s[m] != ')' && s[m] != '\n'
  {
    if p + 8 <= |s| && s[p..p + 7] == InsertOpen && s[p + 7] != '\n' then CloseAt(s, p + 8) else None
  }

  /** A reference argument as the pattern captures it. */
  predicate IsGroup(g: string) {
    g != [] && g[0] != '\n' && forall m :: 1 <= m < |g| ==> g[m] != ')' && g[m] != '\n'
  }

  /** The scan shared by `re.split` and `re.findall`, from position `p`, with the
      current text token starting at `start`: the tokens (text, group, text, ...,
      text) and the groups alone. */
  function Scan(s: string, start: nat, p: nat): (r: (seq<string>, seq<string>))
    requires start <= p <= |s|
    ensures |r.0| == 2 * |r.1| + 1
    ensures forall i :: 0 <= i < |r.1| ==> r.0[2 * i + 1] == r.1[i] && IsGroup(r.1[i])
    decreases |s| - p
  {
    if p == |s| then ([s[start..]], [])
    else
      match MatchAt(s, p)
      case Some(j) =>
        var rest := Scan(s, j + 1, j + 1);
        var g := s[p + 7..j];
        assert forall m :: 1 <= m < |g| ==> g[m] == s[p + 7 + m];
        assert forall i :: 1 <= i < |[g] + rest.1| ==> ([s[start..p], g] + rest.0)[2 * i + 1] == rest.0[2 * (i - 1) + 1];
        ([s[start..p], g] + rest.0, [g] + rest.1)
      case None => Scan(s, start, p + 1)
  }

  /** `re.split(pattern, line)`: text tokens interleaved with the groups. */
  function Tokens(line: string): seq<string> {
    Scan(line, 0, 0).0
  }

  /** `re.findall(pattern, line)`: the groups. */
  function Groups(line: string): seq<string> {
    Scan(line, 0, 0).1
  }

  /** Puts the tokens back together, wrapping each group in `INSERT(` and `)`. */
  function Reassemble(toks: seq<string>): string
    requires |toks| % 2 == 1
    decreases |toks|
  {
    if |toks| == 1 then toks[0]
    else toks[0] + InsertOpen + toks[1] + ")" + Reassemble(toks[2..])
  }

  /** The tokens with the `i`-th group replaced by `vals[i]`: the text tokens kept in
      order, with `vals[i]` between text tokens `i` and `i + 1`. */
  function Fill(toks: seq<string>, vals: seq<string>): string
    requires |toks| == 2 * |vals| + 1
    decreases |vals|
  {
    if vals == [] then toks[0] else toks[0] + vals[0] + Fill(toks[2..], vals[1..])
  }

  /** Each group wrapped back in `INSERT(` and `)`. */
  function Wrapped(toks: seq<string>): (r: seq<string>)
    requires |toks| % 2 == 1
    ensures |toks| == 2 * |r| + 1
    ensures forall i :: 0 <= i < |r| ==> r[i] == InsertOpen + toks[2 * i + 1] + ")"
  {
    seq(|toks| / 2, i requires 0 <= i < |toks| / 2 => InsertOpen + toks[2 * i + 1] + ")")
  }

  /** Filling each place with its own reference gives the line back, so `Fill` with other
      values replaces each reference of the line by its value and keeps the rest. */
  lemma {:induction false} FillWrapped(toks: seq<string>)
    requires |toks| % 2 == 1
    ensures Fill(toks, Wrapped(toks)) == Reassemble(toks)
    decreases |toks|
  {
    if |toks| > 1 {
      var w := Wrapped(toks);
      assert Wrapped(toks[2..]) == w[1..];
      FillWrapped(toks[2..]);
      assert Fill(toks, w) == toks[0] + w[0] + Fill(toks[2..], w[1..]);
    }
  }

  /** One step of `Fill` from the `m`-th place on, after the text `acc`. */
  lemma FillStep(toks: seq<string>, vals: seq<string>, m: nat, acc: string)
    requires |toks| == 2 * |vals| + 1 && m < |vals|
    ensures acc + Fill(toks[2 * m..], vals[m..])
         == acc + toks[2 * m] + vals[m] + Fill(toks[2 * m + 2..], vals[m + 1..])
  {
    var rest := toks[2 * m..];
    assert rest[0] == toks[2 * m] && rest[2..] == toks[2 * m + 2..];
    assert vals[m..][0] == vals[m] && vals[m..][1..] == vals[m + 1..];
    var f := Fill(toks[2 * m + 2..], vals[m + 1..]);
    assert acc + (toks[2 * m] + vals[m] + f) == acc + toks[2 * m] + vals[m] + f;
  }

  lemma OddLength(n: nat)
    ensures (2 * n + 1) % 2 == 1
  {
  }

  lemma {:induction false} ScanReassembles(s: string, start: nat, p: nat)
    requires start <= p <= |s|
    ensures Reassemble(Scan(s, start, p).0) == s[start..]
    decreases |s| - p
  {
    assert |Scan(s, start, p).0| % 2 == 1 by {
      OddLength(|Scan(s, start, p).1|);
    }
    if p < |s| {
      match MatchAt(s, p)
      case Some(j) =>
        assert |Scan(s, j + 1, j + 1).0| % 2 == 1 by {
          OddLength(|Scan(s, j + 1, j + 1).1|);
        }
        var rest := Scan(s, j + 1, j + 1).0;
        var whole := s[start..p] + InsertOpen + s[p + 7..j] + ")" + s[j + 1..];
        assert Reassemble(Scan(s, start, p).0) == whole by {
          assert Reassemble(rest) == s[j + 1..] by {
            ScanReassembles(s, j + 1, j + 1);
          }
          assert Scan(s, start, p).0 == [s[start..p], s[p + 7..j]] + rest by {
            ScanAtMatch(s, start, p, j);
          }
          ReassemblePair(s[start..p], s[p + 7..j], rest);
        }
        assert s[start..] == whole by {
          CutAtReference(s, start, p, j);
        }
      case None =>
        ScanReassembles(s, start, p + 1);
    }
  }

  lemma ScanAtMatch(s: string, start: nat, p: nat, j: nat)
    requires start <= p < |s| && MatchAt(s, p) == Some(j)
    ensures Scan(s, start, p).0 == [s[start..p], s[p + 7..j]] + Scan(s, j + 1, j + 1).0
  {
  }

  lemma ScanAtMatchGroups(s: string, start: nat, p: nat, j: nat)
    requires start <= p < |s| && MatchAt(s, p) == Some(j)
    ensures Scan(s, start, p).1 == [s[p + 7..j]] + Scan(s, j + 1, j + 1).1
  {
  }

  lemma ReassemblePair(a: string, b: string, rest: seq<string>)
    requires |rest| % 2 == 1
    ensures Reassemble([a, b] + rest) == a + InsertOpen + b + ")" + Reassemble(rest)
  {
    assert ([a, b] + rest)[2..] == rest;
  }

  lemma CutAtReference(s: string, start: nat, p: nat, j: nat)
    requires start <= p && p + 7 <= j < |s|
    requires s[p..p + 7] == InsertOpen && s[j] == ')'
    ensures s[start..] == s[start..p] + InsertOpen + s[p + 7..j] + ")" + s[j + 1..]
  {
    assert s[start..] == s[start..p] + s[p..p + 7] + s[p + 7..j] + [s[j]] + s[j + 1..];
  }

  /** Splitting a line loses nothing: the text tokens and the wrapped groups give the
      line back. */
  lemma TokensReassemble(line: string)
    ensures Reassemble(Tokens(line)) == line
  {
    ScanReassembles(line, 0, 0);
  }

  lemma {:induction false} ScanWithoutMatch(s: string, start: nat, p: nat)
    requires start <= p <= |s|
    requires forall q :: p <= q < |s| ==> MatchAt(s, q).None?
    ensures Scan(s, start, p) == ([s[start..]], [])
    decreases |s| - p
  {
    if p < |s| {
      ScanWithoutMatch(s, start, p + 1);
    }
  }

  /** A line without `INSERT(` has no reference and is a single text token. */
  lemma NoInsertNoGroups(line: string)
    requires !Contains(line, InsertOpen)
    ensures Groups(line) == [] && Tokens(line) == [line]
  {
    ContainsAt(line, InsertOpen);
    forall q | 0 <= q < |line| ensures MatchAt(line, q).None? {
      if MatchAt(line, q).Some? {
        assert OccursAt(line, InsertOpen, q);
      }
    }
    ScanWithoutMatch(line, 0, 0);
  }

  // ---------------------------------------------------------------------------
  // INSERT\([^()]*?\) and the nesting check
  // ---------------------------------------------------------------------------

  predicate IsParen(c: char) {
    c == '(' || c == ')'
  }

  /** Index of the first parenthesis at or after `k`, or `|s|`. */
  function FirstParen(s: string, k: nat): (r: nat)
    requires k <= |s|
    ensures k <= r <= |s|
    ensures r < |s| ==> IsParen(s[r])
    ensures forall m :: k <= m < r ==> !IsParen(s[m])
    decreases |s| - k
  {
    if k == |s| || IsParen(s[k]) then k else FirstParen(s, k + 1)
  }

  /** The first parenthesis from `k` on is at `j` when `s[j]` is one and none is before it. */
  lemma FirstParenAt(s: string, k: nat, j: nat)
    requires k <= j < |s| && IsParen(s[j])
    requires forall m :: k <= m < j ==> !IsParen(s[m])
    ensures FirstParen(s, k) == j
  {
  }

  /** The closing `)` of a match of `INSERT\([^()]*?\)` at `p`: an `INSERT(` whose next
      parenthesis closes it. */
  function GuardAt(s: string, p: nat): (r: Option<nat>)
    requires p <= |s|
    ensures r.Some? ==> p + 7 <= r.value < |s| && s[p..p + 7] == InsertOpen && s[r.value] == ')'
    ensures r.Some? ==> forall m :: p + 7 <= m < r.value ==> !IsParen(s[m])
  {
    if p + 7 <= |s| && s[p..p + 7] == InsertOpen then
      var j := FirstParen(s, p + 7);
      if j < |s| && s[j] == ')' then Some(j) else None
    else None
  }

  /** `p.sub('XXX', s[k..])`: every innermost reference, left to right, replaced. */
  function SubGuard(s: string, k: nat): string
    requires k <= |s|
    decreases |s| - k
  {
    if k == |s| then []
    else
      match GuardAt(s, k)
      case Some(j) => "XXX" + SubGuard(s, j + 1)
      case None => [s[k]] + SubGuard(s, k + 1)
  }

  /** `p.search(s[k..])`. */
  predicate GuardSearch(s: string, k: nat)
    requires k <= |s|
    decreases |s| - k
  {
    k < |s| && (GuardAt(s, k).Some? || GuardSearch(s, k + 1))
  }

  /** The line holds a reference inside another: after every innermost reference is
      replaced, one still remains. */
  predicate NestedInsert(line: string) {
    GuardSearch(SubGuard(line, 0), 0)
  }

  lemma {:induction false} SubGuardSkip(s: string, p: nat, q: nat)
    requires p <= q <= |s|
    requires forall m :: p <= m < q ==> GuardAt(s, m).None?
    ensures SubGuard(s, p) == s[p..q] + SubGuard(s, q)
    decreases q - p
  {
    if p < q {
      SubGuardSkip(s, p + 1, q);
      SubGuardNone(s, p);
      ConsSlice(s, p, q, SubGuard(s, q));
    }
  }

  /** `[s[p]] + (s[p+1..q] + t) == s[p..q] + t`, kept apart from the facts about `s`. */
  lemma ConsSlice(s: string, p: nat, q: nat, t: string)
    requires p < q <= |s|
    ensures [s[p]] + (s[p + 1..q] + t) == s[p..q] + t
  {
    assert s[p..q] == [s[p]] + s[p + 1..q];
  }

  lemma SubGuardNone(s: string, p: nat)
    requires p < |s| && GuardAt(s, p).None?
    ensures SubGuard(s, p) == [s[p]] + SubGuard(s, p + 1)
  {
  }

  /** `INSERT(INSERT(a)b)` with `a` and `b` free of parentheses is a nested reference. */
  lemma NestedReferenceDetected(a: string, b: string)
    requires forall m :: 0 <= m < |a| ==> !IsParen(a[m])
    requires forall m :: 0 <= m < |b| ==> !IsParen(b[m])
    ensures NestedInsert(InsertOpen + InsertOpen + a + ")" + b + ")")
  {
    NestedSubGuard(a, b);
    RemainingReference(b);
  }

  /** Replacing the innermost reference leaves the outer one, with `XXX` inside. */
  lemma NestedSubGuard(a: string, b: string)
    requires forall m :: 0 <= m < |a| ==> !IsParen(a[m])
    requires forall m :: 0 <= m < |b| ==> !IsParen(b[m])
    ensures SubGuard(InsertOpen + InsertOpen + a + ")" + b + ")", 0) == InsertOpen + "XXX" + b + ")"
  {
    var s := InsertOpen + InsertOpen + a + ")" + b + ")";
    NestedGuardPositions(a, b);
    NestedPieces(a, b);
    SubGuardOneReference(s, 14 + |a|, b + ")");
  }

  lemma NestedPieces(a: string, b: string)
    ensures var s := InsertOpen + InsertOpen + a + ")" + b + ")";
            |s| == 16 + |a| + |b| && s[..7] == InsertOpen && s[15 + |a|..] == b + ")"
  {
  }

  /** A line whose only reference starts at 7 and closes at `j`. */
  lemma SubGuardOneReference(s: string, j: nat, tail: string)
    requires 7 < j < |s| && s[j + 1..] == tail
    requires forall m :: 0 <= m < 7 ==> GuardAt(s, m).None?
    requires GuardAt(s, 7) == Some(j)
    requires forall m :: j + 1 <= m <= |s| ==> GuardAt(s, m).None?
    ensures SubGuard(s, 0) == s[..7] + "XXX" + tail
  {
    var head := s[..7];
    assert SubGuard(s, 0) == head + SubGuard(s, 7) by {
      SubGuardSkip(s, 0, 7);
      SliceEnds(s, 7, j + 1);
    }
    assert SubGuard(s, 7) == "XXX" + SubGuard(s, j + 1) by {
      SubGuardSome(s, 7, j);
    }
    assert SubGuard(s, j + 1) == tail + [] by {
      SubGuardSkip(s, j + 1, |s|);
      SliceEnds(s, 7, j + 1);
    }
    Regroup(head, "XXX", tail);
  }

  lemma SubGuardSome(s: string, k: nat, j: nat)
    requires k < |s| && GuardAt(s, k) == Some(j)
    ensures SubGuard(s, k) == "XXX" + SubGuard(s, j + 1)
  {
  }

  lemma SliceEnds(s: string, k: nat, l: nat)
    requires k <= |s| && l <= |s|
    ensures s[0..k] == s[..k] && s[l..|s|] == s[l..]
  {
  }

  lemma Regroup(a: string, b: string, c: string)
    ensures a + (b + (c + [])) == a + b + c
  {
  }

  lemma NestedGuardPositions(a: string, b: string)
    requires forall m :: 0 <= m < |a| ==> !IsParen(a[m])
    requires forall m :: 0 <= m < |b| ==> !IsParen(b[m])
    ensures forall m :: 0 <= m < 7 ==> GuardAt(InsertOpen + InsertOpen + a + ")" + b + ")", m).None?
    ensures GuardAt(InsertOpen + InsertOpen + a + ")" + b + ")", 7) == Some(14 + |a|)
    ensures forall m :: 15 + |a| <= m <= |a| + |b| + 16 ==> GuardAt(InsertOpen + InsertOpen + a + ")" + b + ")", m).None?
  {
    var s := InsertOpen + InsertOpen + a + ")" + b + ")";
    var j := 14 + |a|;
    assert |s| == |a| + |b| + 16;
    assert s[13] == '(' && s[j] == ')';
    forall m | 7 <= m < 13 ensures !IsParen(s[m]) {
      assert s[m] == InsertOpen[m - 7];
    }
    forall m | 14 <= m < j ensures !IsParen(s[m]) {
      assert s[m] == a[m - 14];
    }
    assert FirstParen(s, 7) == 13;
    assert FirstParen(s, 14) == j;
    forall m | 1 <= m < 7 ensures GuardAt(s, m).None? {
      assert s[m] != 'I';
    }
    forall m | j + 1 <= m <= |s| ensures GuardAt(s, m).None? {
      if m + 7 <= |s| {
        if m + 6 < |s| - 1 {
          assert s[m + 6] == b[m + 6 - j - 1];
        }
        assert s[m + 6] != '(';
      }
    }
  }

  /** `INSERT(XXXb)` with `b` free of parentheses is still a reference. */
  lemma RemainingReference(b: string)
    requires forall m :: 0 <= m < |b| ==> !IsParen(b[m])
    ensures GuardSearch(InsertOpen + "XXX" + b + ")", 0)
  {
    RemainingMatch(InsertOpen + "XXX" + b + ")", b);
  }

  /** Where the guard matches in `INSERT(XXXb)`. */
  lemma RemainingMatch(t: string, b: string)
    requires t == InsertOpen + "XXX" + b + ")"
    requires forall m :: 0 <= m < |b| ==> !IsParen(b[m])
    ensures GuardAt(t, 0).Some?
  {
    var j := |t| - 1;
    assert t[0..7] == InsertOpen && t[j] == ')' by {
      assert t[..7] == InsertOpen;
    }
    forall m | 7 <= m < j ensures !IsParen(t[m]) {
      if m >= 10 {
        assert t[m] == b[m - 10];
      } else {
        assert t[m] == 'X';
      }
    }
    GuardAtFrom(t, 0, j);
  }

  /** A match of the guard at `p`, read off the characters around it. */
  lemma GuardAtFrom(s: string, p: nat, j: nat)
    requires p + 7 <= j < |s| && s[p..p + 7] == InsertOpen && s[j] == ')'
    requires forall m :: p + 7 <= m < j ==> !IsParen(s[m])
    ensures GuardAt(s, p) == Some(j)
  {
    FirstParenAt(s, p + 7, j);
  }

  /** The example of a nested reference from the configuration files' point of view. */
  lemma NestedReferenceExample()
    ensures NestedInsert("INSERT(INSERT(b.yaml:section):key)")
  {
    var a := "b.yaml:section";
    var b := ":key";
    assert InsertOpen + InsertOpen + a + ")" + b + ")" == "INSERT(INSERT(b.yaml:section):key)";
    NestedReferenceDetected(a, b);
  }

  // ---------------------------------------------------------------------------
  // A line that is one reference
  // ---------------------------------------------------------------------------

  /** A line that is exactly one reference `INSERT(g)`, with `g` free of parentheses and
      newlines, has `g` as its only group, empty text around it, and is not nested. */
  lemma SingleReference(g: string)
    requires g != []
    requires forall m :: 0 <= m < |g| ==> !IsParen(g[m]) && g[m] != '\n'
    ensures Tokens(InsertOpen + g + ")") == ["", g, ""]
    ensures Groups(InsertOpen + g + ")") == [g]
    ensures !NestedInsert(InsertOpen + g + ")")
  {
    var s := InsertOpen + g + ")";
    var j := 7 + |g|;
    assert s[..7] == InsertOpen && s[7..j] == g && s[j] == ')';
    forall m | 7 <= m < j ensures s[m] == g[m - 7] {
    }
    assert CloseAt(s, 8) == Some(j) by {
      CloseAtFirst(s, 8, j);
    }
    assert MatchAt(s, 0) == Some(j);
    assert s[j + 1..] == [];
    assert Scan(s, j + 1, j + 1) == ([""], []);
    assert Scan(s, 0, 0) == (["", g] + [""], [g] + []);
    // The nesting check replaces the one reference and finds nothing left.
    assert FirstParen(s, 7) == j;
    assert GuardAt(s, 0) == Some(j);
    assert SubGuard(s, j + 1) == [];
    var t := SubGuard(s, 0);
    assert t == "XXX";
    assert !GuardSearch(t, 3);
    assert !GuardSearch(t, 2);
    assert !GuardSearch(t, 1);
  }

  lemma {:induction false} CloseAtFirst(s: string, k: nat, j: nat)
    requires k <= j < |s| && s[j] == ')'
    requires forall m :: k <= m < j ==> s[m] != ')' && s[m] != '\n'
    ensures CloseAt(s, k) == Some(j)
    decreases j - k
  {
    if k < j {
      CloseAtFirst(s, k + 1, j);
    }
  }

  // ---------------------------------------------------------------------------
  // Typed or textual substitution
  // ---------------------------------------------------------------------------

  /** The characters `'INSERT('` names when given to `lstrip`: a set, not a prefix. */
  const InsertChars: set<char> := {'I', 'N', 'S', 'E', 'R', 'T', '('}

  /** `line.lstrip('INSERT(').rstrip(')')`. */
  function Stripped(line: string): string {
    RStrip(LStrip(line, InsertChars), {')'})
  }

  /** `enforce_string` is cleared, and the referenced value substituted as it is, only
      when there is exactly one group and it equals the stripped line. */
  predicate TypedSubstitution(line: string, groups: seq<string>) {
    |groups| == 1 && groups[0] == Stripped(line)
  }

  /** For a line that is one reference `INSERT(g)`, the value is substituted as it is
      exactly when the first character of `g` is not one of the letters of `INSERT(`:
      `INSERT(TREE.yaml:key)` gives text because `lstrip` also eats the `T`. */
  lemma SingleReferenceTyped(g: string)
    requires g != []
    requires forall m :: 0 <= m < |g| ==> !IsParen(g[m]) && g[m] != '\n'
    ensures TypedSubstitution(InsertOpen + g + ")", Groups(InsertOpen + g + ")")) <==> g[0] !in InsertChars
  {
    SingleReference(g);
    var s := InsertOpen + g + ")";
    var l := LStrip(s, InsertChars);
    forall m | 0 <= m < 7 ensures s[m] in InsertChars {
    }
    assert s[7] == g[0];
    if g[0] !in InsertChars {
      assert |l| <= |s| - 7;
      assert |l| >= |s| - 7;
      assert l == g + ")";
      assert RStrip(l, {')'}) == RStrip(g, {')'});
      assert g[|g| - 1] !in {')'};
      assert RStrip(g, {')'}) == g;
    } else {
      assert |l| <= |s| - 8;
    }
  }

  lemma TypedSubstitutionExample()
    ensures TypedSubstitution(InsertOpen + "yields.yaml:2e2mu:ggH" + ")", Groups(InsertOpen + "yields.yaml:2e2mu:ggH" + ")"))
  {
    var g := "yields.yaml:2e2mu:ggH";
    var line := InsertOpen + g + ")";
    assert g[0] !in InsertChars;
    SingleReferenceTyped(g);

  }

  lemma TextSubstitutionExample()
    ensures !TypedSubstitution("INSERT(TREE.yaml:2e2mu)", Groups("INSERT(TREE.yaml:2e2mu)"))
  {
    var g := "TREE.yaml:2e2mu";
    assert InsertOpen + g + ")" == "INSERT(TREE.yaml:2e2mu)";
    SingleReferenceTyped(g);
  }

  // ---------------------------------------------------------------------------
  // A reference inside text
  // ---------------------------------------------------------------------------

  /** `INSERT(` starts at `q`. Both patterns need it for a match there. */
  predicate OpenAt(s: string, q: nat) {
    q + 7 <= |s| && s[q..q + 7] == InsertOpen
  }

  /** `INSERT(` cannot start where the seventh character is not `(`. */
  lemma NoOpenAt(s: string, q: nat)
    requires q + 7 <= |s| ==> s[q + 6] != '('
    ensures !OpenAt(s, q)
    ensures q <= |s| ==> MatchAt(s, q).None? && GuardAt(s, q).None?
  {
    assert q + 7 <= |s| ==> s[q..q + 7][6] == s[q + 6];
  }

  lemma {:induction false} ScanSkip(s: string, start: nat, p: nat, q: nat)
    requires start <= p <= q <= |s|
    requires forall m :: p <= m < q ==> MatchAt(s, m).None?
    ensures Scan(s, start, p) == Scan(s, start, q)
    decreases q - p
  {
    if p < q {
      ScanSkip(s, start, p + 1, q);
    }
  }

  /** A text without `(` holds no innermost reference from `k` on. */
  lemma {:induction false} NoGuardWithoutParen(u: string, k: nat)
    requires k <= |u|
    requires forall m :: 0 <= m < |u| ==> u[m] != '('
    ensures !GuardSearch(u, k)
    decreases |u| - k
  {
    if k < |u| {
      NoOpenAt(u, k);
      NoGuardWithoutParen(u, k + 1);
    }
  }

  /** The positions of `t0 + INSERT(g) + t1` where no `INSERT(` starts: all but `|t0|`. */
  lemma EmbeddedPositions(t0: string, g: string, t1: string)
    requires forall m :: 0 <= m < |g| ==> !IsParen(g[m])
    requires forall m :: 0 <= m < |t0| ==> t0[m] != '('
    requires forall m :: 0 <= m < |t1| ==> t1[m] != '('
    ensures var s := t0 + InsertOpen + g + ")" + t1;
            && (forall q :: 0 <= q < |t0| ==> MatchAt(s, q).None? && GuardAt(s, q).None?)
            && (forall q :: |t0| + 8 + |g| <= q <= |s| ==> MatchAt(s, q).None? && GuardAt(s, q).None?)
  {
    var s := t0 + InsertOpen + g + ")" + t1;
    var p := |t0|;
    var j := p + 7 + |g|;
    forall q | 0 <= q < p ensures MatchAt(s, q).None? && GuardAt(s, q).None? {
      if q + 6 < p {
        assert s[q + 6] == t0[q + 6];
      } else {
        assert s[q + 6] == InsertOpen[q + 6 - p];
      }
      NoOpenAt(s, q);
    }
    forall q | j + 1 <= q <= |s| ensures MatchAt(s, q).None? && GuardAt(s, q).None? {
      if q + 7 <= |s| {
        assert s[q + 6] == t1[q + 6 - j - 1];
      }
      NoOpenAt(s, q);
    }
  }

  /** Where the pieces of `t0 + INSERT(g) + t1` sit. */
  lemma EmbeddedSlices(t0: string, g: string, t1: string)
    ensures var s := t0 + InsertOpen + g + ")" + t1;
            var p := |t0|;
            var j := p + 7 + |g|;
            && |s| == j + 1 + |t1|
            && s[..p] == t0 && s[p..p + 7] == InsertOpen && s[p + 7..j] == g && s[j] == ')' && s[j + 1..] == t1
            && (forall m :: 0 <= m < p ==> s[m] == t0[m])
            && (forall m :: p <= m < p + 7 ==> s[m] == InsertOpen[m - p])
            && (forall m :: p + 7 <= m < j ==> s[m] == g[m - p - 7])
            && (forall m :: j < m < |s| ==> s[m] == t1[m - j - 1])
  {
  }

  /** `re.split` of a line whose only reference opens at `p` and closes at `j`. */
  lemma ScanOneReference(s: string, p: nat, j: nat)
    requires p + 8 <= j < |s| && MatchAt(s, p) == Some(j)
    requires forall q :: 0 <= q < p ==> MatchAt(s, q).None?
    requires forall q :: j + 1 <= q <= |s| ==> MatchAt(s, q).None?
    ensures Scan(s, 0, 0) == ([s[..p], s[p + 7..j], s[j + 1..]], [s[p + 7..j]])
  {
    var rest := Scan(s, j + 1, j + 1);
    assert rest == ([s[j + 1..]], []) by {
      ScanWithoutMatch(s, j + 1, j + 1);
    }
    assert Scan(s, 0, 0) == Scan(s, 0, p) by {
      ScanSkip(s, 0, 0, p);
    }
    assert Scan(s, 0, p).0 == [s[0..p], s[p + 7..j]] + rest.0 by {
      ScanAtMatch(s, 0, p, j);
    }
    assert Scan(s, 0, p).1 == [s[p + 7..j]] + rest.1 by {
      ScanAtMatchGroups(s, 0, p, j);
    }
    assert s[0..p] == s[..p];
    assert [s[..p], s[p + 7..j]] + [s[j + 1..]] == [s[..p], s[p + 7..j], s[j + 1..]];
    assert [s[p + 7..j]] + [] == [s[p + 7..j]];
  }

  /** Without a guard match from `k` on, the substitution keeps the rest of the line. */
  lemma SubGuardRest(s: string, k: nat)
    requires k <= |s|
    requires forall q :: k <= q <= |s| ==> GuardAt(s, q).None?
    ensures SubGuard(s, k) == s[k..]
  {
    SubGuardSkip(s, k, |s|);
    assert s[k..|s|] == s[k..];
  }

  /** The nesting check on a line whose only innermost reference opens at `p` and closes
      at `j`: the text before it, `XXX`, and the text after it. */
  lemma SubGuardOneEmbedded(s: string, p: nat, j: nat)
    requires p < j < |s|
    requires SubGuard(s, j + 1) == s[j + 1..]
    requires SubGuard(s, p) == "XXX" + SubGuard(s, j + 1)
    requires SubGuard(s, 0) == s[0..p] + SubGuard(s, p)
    ensures SubGuard(s, 0) == s[..p] + ("XXX" + (s[j + 1..] + []))
  {
    assert s[0..p] == s[..p];
    assert s[j + 1..] + [] == s[j + 1..];
  }

  /** `t0 + "XXX" + t1` holds no `(` when `t0` and `t1` hold none. */
  lemma NoParenAround(t0: string, t1: string)
    requires forall m :: 0 <= m < |t0| ==> t0[m] != '('
    requires forall m :: 0 <= m < |t1| ==> t1[m] != '('
    ensures var u := t0 + ("XXX" + (t1 + [])); forall m :: 0 <= m < |u| ==> u[m] != '('
  {
    var u := t0 + ("XXX" + (t1 + []));
    forall m | 0 <= m < |u| ensures u[m] != '(' {
      if m < |t0| {
        assert u[m] == t0[m];
      } else if m < |t0| + 3 {
        assert u[m] == 'X';
      } else {
        assert u[m] == t1[m - |t0| - 3];
      }
    }
  }

  /** `t0 + INSERT(g) + t1`, with no `(` in the text around the reference, cuts into the
      tokens `t0`, `g`, `t1` and is not a nested reference. */
  lemma EmbeddedReference(t0: string, g: string, t1: string)
    requires g != []
    requires forall m :: 0 <= m < |g| ==> !IsParen(g[m]) && g[m] != '\n'
    requires forall m :: 0 <= m < |t0| ==> t0[m] != '('
    requires forall m :: 0 <= m < |t1| ==> t1[m] != '('
    ensures Tokens(t0 + InsertOpen + g + ")" + t1) == [t0, g, t1]
    ensures Groups(t0 + InsertOpen + g + ")" + t1) == [g]
    ensures !NestedInsert(t0 + InsertOpen + g + ")" + t1)
  {
    EmbeddedScan(t0, g, t1);
    EmbeddedNotNested(t0, g, t1);
  }

  /** The tokens and groups of `t0 + INSERT(g) + t1`. */
  lemma EmbeddedScan(t0: string, g: string, t1: string)
    requires g != []
    requires forall m :: 0 <= m < |g| ==> !IsParen(g[m]) && g[m] != '\n'
    requires forall m :: 0 <= m < |t0| ==> t0[m] != '('
    requires forall m :: 0 <= m < |t1| ==> t1[m] != '('
    ensures Scan(t0 + InsertOpen + g + ")" + t1, 0, 0) == ([t0, g, t1], [g])
  {
    var s := t0 + InsertOpen + g + ")" + t1;
    var p := |t0|;
    var j := p + 7 + |g|;
    assert MatchAt(s, p) == Some(j) by {
      EmbeddedMatch(t0, g, t1);
    }
    assert s[..p] == t0 && s[p + 7..j] == g && s[j + 1..] == t1 by {
      EmbeddedSlices(t0, g, t1);
    }
    EmbeddedPositions(t0, g, t1);
    ScanOneReference(s, p, j);
  }

  /** The reference of `t0 + INSERT(g) + t1` matches where it starts. */
  lemma EmbeddedMatch(t0: string, g: string, t1: string)
    requires g != []
    requires forall m :: 0 <= m < |g| ==> !IsParen(g[m]) && g[m] != '\n'
    ensures var s := t0 + InsertOpen + g + ")" + t1;
            MatchAt(s, |t0|) == Some(|t0| + 7 + |g|)
  {
    var s := t0 + InsertOpen + g + ")" + t1;
    var p := |t0|;
    var j := p + 7 + |g|;
    EmbeddedSlices(t0, g, t1);
    assert CloseAt(s, p + 8) == Some(j) by {
      CloseAtFirst(s, p + 8, j);
    }
  }

  /** `t0 + INSERT(g) + t1` passes the nesting check. */
  lemma EmbeddedNotNested(t0: string, g: string, t1: string)
    requires g != []
    requires forall m :: 0 <= m < |g| ==> !IsParen(g[m])
    requires forall m :: 0 <= m < |t0| ==> t0[m] != '('
    requires forall m :: 0 <= m < |t1| ==> t1[m] != '('
    ensures !NestedInsert(t0 + InsertOpen + g + ")" + t1)
  {
    var s := t0 + InsertOpen + g + ")" + t1;
    var u := t0 + ("XXX" + (t1 + []));
    assert SubGuard(s, 0) == u by {
      EmbeddedSubGuard(t0, g, t1);
    }
    NoParenAround(t0, t1);
    NoGuardWithoutParen(u, 0);
  }

  /** The substitution of the nesting check replaces the one reference by `XXX`. */
  lemma EmbeddedSubGuard(t0: string, g: string, t1: string)
    requires g != []
    requires forall m :: 0 <= m < |g| ==> !IsParen(g[m])
    requires forall m :: 0 <= m < |t0| ==> t0[m] != '('
    requires forall m :: 0 <= m < |t1| ==> t1[m] != '('
    ensures SubGuard(t0 + InsertOpen + g + ")" + t1, 0) == t0 + ("XXX" + (t1 + []))
  {
    var s := t0 + InsertOpen + g + ")" + t1;
    var p := |t0|;
    var j := p + 7 + |g|;
    assert s[..p] == t0 && s[j + 1..] == t1 && GuardAt(s, p) == Some(j) by {
      EmbeddedSlices(t0, g, t1);
      GuardAtFrom(s, p, j);
    }
    EmbeddedPositions(t0, g, t1);
    assert SubGuard(s, j + 1) == s[j + 1..] by {
      SubGuardRest(s, j + 1);
    }
    assert SubGuard(s, p) == "XXX" + SubGuard(s, j + 1) by {
      SubGuardSome(s, p, j);
    }
    assert SubGuard(s, 0) == s[0..p] + SubGuard(s, p) by {
      SubGuardSkip(s, 0, p);
    }
    SubGuardOneEmbedded(s, p, j);
  }

  /** Text before the reference that `lstrip` cannot eat makes the substitution
      textual: `rstrip` then keeps more than the group. */
  lemma StrippedKeepsText(s: string, p: nat, j: nat, m: nat)
    requires p + 8 <= j < |s| && s[j] == ')' && s[j - 1] != ')'
    requires m < p && s[m] !in InsertChars
    ensures |Stripped(s)| > j - 1 - p
  {
    var l := LStrip(s, InsertChars);
    var k := |s| - |l|;
    assert k <= m;
    assert l[j - 1 - k] == s[j - 1];
    var r := RStrip(l, {')'});
    assert |r| > j - 1 - k;
  }

  /** Text after the reference that `rstrip` cannot eat makes the substitution textual:
      the `)` closing the reference stays. */
  lemma StrippedKeepsParen(s: string, j: nat, m: nat)
    requires j < m < |s| && s[j] == ')' && s[m] != ')'
    ensures exists q :: 0 <= q < |Stripped(s)| && Stripped(s)[q] == ')'
  {
    var l := LStrip(s, InsertChars);
    var k := |s| - |l|;
    assert k <= j;
    var r := RStrip(l, {')'});
    assert l[m - k] == s[m];
    assert |r| > m - k;
    assert r[j - k] == l[j - k] == s[j];
    assert Stripped(s) == r;
  }

  /** With the text around the reference eaten by `lstrip` and `rstrip`, the stripped
      line is the group exactly when the group does not start with a letter of `INSERT(`. */
  lemma StrippedToGroup(s: string, p: nat, j: nat)
    requires p + 8 <= j < |s| && s[j - 1] != ')'
    requires forall m :: 0 <= m < p + 7 ==> s[m] in InsertChars
    requires forall m :: j <= m < |s| ==> s[m] == ')'
    ensures s[p + 7] !in InsertChars ==> Stripped(s) == s[p + 7..j]
    ensures s[p + 7] in InsertChars ==> |Stripped(s)| < j - p - 7
  {
    var l := LStrip(s, InsertChars);
    var k := |s| - |l|;
    var r := RStrip(l, {')'});
    if s[p + 7] !in InsertChars {
      assert k == p + 7;
      assert l[j - 1 - k] == s[j - 1];
      assert |r| == j - k;
      assert r == s[p + 7..j];
    } else {
      assert k >= p + 8;
    }
  }

  /** `lstrip('INSERT(')` eats all of `t0` and stops at the group, and `rstrip(')')`
      eats all of `t1`. */
  predicate EatenAround(t0: string, g: string, t1: string) {
    && g != [] && g[0] !in InsertChars
    && (forall m :: 0 <= m < |t0| ==> t0[m] in InsertChars)
    && (forall m :: 0 <= m < |t1| ==> t1[m] == ')')
  }

  /** `t0 + INSERT(g) + t1` is substituted as a typed value exactly when `lstrip` eats
      all of `t0`, `rstrip` all of `t1`, and `g` does not start with a letter of
      `INSERT(`. Text around a reference normally makes the substitution textual. */
  lemma EmbeddedReferenceTyped(t0: string, g: string, t1: string)
    requires g != []
    requires forall m :: 0 <= m < |g| ==> !IsParen(g[m]) && g[m] != '\n'
    requires forall m :: 0 <= m < |t0| ==> t0[m] != '('
    requires forall m :: 0 <= m < |t1| ==> t1[m] != '('
    ensures var line := t0 + InsertOpen + g + ")" + t1;
            TypedSubstitution(line, Groups(line)) <==> EatenAround(t0, g, t1)
  {
    var s := t0 + InsertOpen + g + ")" + t1;
    assert Groups(s) == [g] by {
      EmbeddedScan(t0, g, t1);
    }
    StrippedAround(t0, g, t1);
  }

  /** The stripped form of `t0 + INSERT(g) + t1` is the group exactly when the strips
      eat all the text around the reference. */
  lemma StrippedAround(t0: string, g: string, t1: string)
    requires g != []
    requires forall m :: 0 <= m < |g| ==> g[m] != ')'
    ensures Stripped(t0 + InsertOpen + g + ")" + t1) == g <==> EatenAround(t0, g, t1)
  {
    if exists m :: 0 <= m < |t0| && t0[m] !in InsertChars {
      var m :| 0 <= m < |t0| && t0[m] !in InsertChars;
      TextBeforeKept(t0, g, t1, m);
    } else if exists m :: 0 <= m < |t1| && t1[m] != ')' {
      var m :| 0 <= m < |t1| && t1[m] != ')';
      TextAfterKept(t0, g, t1, m);
    } else {
      TextAllEaten(t0, g, t1);
    }
  }

  /** A character of `t0` that `lstrip` cannot eat keeps the line from stripping to `g`. */
  lemma TextBeforeKept(t0: string, g: string, t1: string, m: nat)
    requires g != [] && g[|g| - 1] != ')'
    requires m < |t0| && t0[m] !in InsertChars
    ensures Stripped(t0 + InsertOpen + g + ")" + t1) != g
  {
    var s := t0 + InsertOpen + g + ")" + t1;
    var p := |t0|;
    var j := p + 7 + |g|;
    assert p + 8 <= j < |s| && s[j] == ')' && s[j - 1] != ')' && s[m] !in InsertChars by {
      EmbeddedSlices(t0, g, t1);
      assert s[j - 1] == g[|g| - 1];
    }
    StrippedKeepsText(s, p, j, m);
  }

  /** A character of `t1` other than `)` keeps the closing `)` in the stripped line. */
  lemma TextAfterKept(t0: string, g: string, t1: string, m: nat)
    requires forall k :: 0 <= k < |g| ==> g[k] != ')'
    requires m < |t1| && t1[m] != ')'
    ensures Stripped(t0 + InsertOpen + g + ")" + t1) != g
  {
    var s := t0 + InsertOpen + g + ")" + t1;
    var j := |t0| + 7 + |g|;
    assert j < j + 1 + m < |s| && s[j] == ')' && s[j + 1 + m] != ')' by {
      EmbeddedSlices(t0, g, t1);
    }
    StrippedKeepsParen(s, j, j + 1 + m);
    var q :| 0 <= q < |Stripped(s)| && Stripped(s)[q] == ')';
  }

  /** With all of `t0` and `t1` eaten, the line strips to `g` exactly when `g` does not
      start with a letter of `INSERT(`. */
  lemma TextAllEaten(t0: string, g: string, t1: string)
    requires g != [] && g[|g| - 1] != ')'
    requires forall m :: 0 <= m < |t0| ==> t0[m] in InsertChars
    requires forall m :: 0 <= m < |t1| ==> t1[m] == ')'
    ensures Stripped(t0 + InsertOpen + g + ")" + t1) == g <==> g[0] !in InsertChars
  {
    var s := t0 + InsertOpen + g + ")" + t1;
    var p := |t0|;
    var j := p + 7 + |g|;
    assert && p + 8 <= j < |s| && s[j - 1] != ')' && s[p + 7] == g[0] && s[p + 7..j] == g
           && (forall m :: 0 <= m < p + 7 ==> s[m] in InsertChars)
           && (forall m :: j <= m < |s| ==> s[m] == ')') by {
      EmbeddedSlices(t0, g, t1);
      assert s[j - 1] == g[|g| - 1];
      forall m | 0 <= m < p + 7 ensures s[m] in InsertChars {
        if m < p {
          assert t0[m] in InsertChars;
        }
      }
    }
    StrippedToGroup(s, p, j);
  }
}
