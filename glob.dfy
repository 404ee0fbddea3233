/** Unix shell-style wildcards as Python 2.7's `fnmatch.fnmatch` applies them on a
    POSIX system (case-sensitive): `*` matches any run of characters, `?` any single
    character, `[seq]` any character in seq and `[!seq]` any character not in seq.
    A `[` without a closing `]` is an ordinary character, a `]` right after `[` or
    `[!` belongs to the set, and a descending range such as `[z-a]` is rejected
    by the regular-expression compiler. */
module Glob {
  import opened Text
  import opened Values

  datatype ClassItem = Single(c: char) | Range(lo: char, hi: char)

  datatype Token =
    | AnyRun
    | AnyChar
    | Class(negated: bool, items: seq<ClassItem>)
    | Literal(c: char)

  predicate InClass(items: seq<ClassItem>, c: char) {
    exists k :: 0 <= k < |items| && ItemHolds(items[k], c)
  }

  predicate ItemHolds(item: ClassItem, c: char) {
    match item
    case Single(x) => c == x
    case Range(lo, hi) => lo <= c <= hi
  }

  /** Index of the `]` that closes a set whose members start at `j`, or `|pat|`. */
  function CloseBracket(pat: string, j: nat): (k: nat)
    requires j <= |pat|
    ensures j <= k <= |pat|
    ensures k < |pat| ==> pat[k] == ']'
    ensures forall m :: j <= m < k ==> pat[m] != ']'
    decreases |pat| - j
  {
    if j == |pat| || pat[j] == ']' then j else CloseBracket(pat, j + 1)
  }

  /** Where the members of a set opened by the `[` at `i - 1` end: a leading `!` and
      then a leading `]` are skipped before the closing `]` is searched for. */
  function SetEnd(pat: string, i: nat): (k: nat)
    requires i <= |pat|
    ensures i <= k <= |pat|
  {
    var j1 := if i < |pat| && pat[i] == '!' then i + 1 else i;
    var j2 := if j1 < |pat| && pat[j1] == ']' then j1 + 1 else j1;
    CloseBracket(pat, j2)
  }

  /** The members of a set, as the regular-expression compiler reads them; `None` for
      a descending range. */
  function ParseClass(body: string): (r: Option<seq<ClassItem>>)
    ensures body == [] ==> r == Some([])
    decreases |body|
  {
    if body == [] then Some([])
    else if |body| >= 3 && body[1] == '-' then
      if body[2] < body[0] then None
      else
        match ParseClass(body[3..])
        case None => None
        case Some(rest) => Some([Range(body[0], body[2])] + rest)
    else
      match ParseClass(body[1..])
      case None => None
      case Some(rest) => Some([Single(body[0])] + rest)
  }

  /** `fnmatch.translate`, read as a sequence of matching tokens rather than as
      regular-expression text. */
  function Compile(pat: string, i: nat := 0): (r: Option<seq<Token>>)
    requires i <= |pat|
    decreases |pat| - i
  {
    if i == |pat| then Some([])
    else
      var c := pat[i];
      if c == '*' then Prepend(AnyRun, Compile(pat, i + 1))
      else if c == '?' then Prepend(AnyChar, Compile(pat, i + 1))
      else if c == '[' then
        var k := SetEnd(pat, i + 1);
        if k == |pat| then Prepend(Literal('['), Compile(pat, i + 1))
        else
          var stuff := pat[i + 1..k];
          var negated := stuff != [] && stuff[0] == '!';
          var body := if negated then stuff[1..] else stuff;
          match ParseClass(body)
          case None => None
          case Some(items) => Prepend(Class(negated, items), Compile(pat, k + 1))
      else Prepend(Literal(c), Compile(pat, i + 1))
  }

  function Prepend(t: Token, r: Option<seq<Token>>): Option<seq<Token>> {
    match r
    case None => None
    case Some(ts) => Some([t] + ts)
  }

  /** Whether the whole of `s` is matched by the tokens. */
  predicate Matches(toks: seq<Token>, s: string)
    decreases |toks|, |s|
  {
    if toks == [] then s == []
    else
      match toks[0]
      case AnyRun => Matches(toks[1..], s) || (s != [] && Matches(toks, s[1..]))
      case AnyChar => s != [] && Matches(toks[1..], s[1..])
      case Class(negated, items) =>
        s != [] && InClass(items, s[0]) != negated && Matches(toks[1..], s[1..])
      case Literal(c) => s != [] && s[0] == c && Matches(toks[1..], s[1..])
  }

  /** `fnmatch.fnmatch(name, pat)`. */
  function FnMatch(name: string, pat: string): (r: Result<bool>)
    ensures r.Err? <==> Compile(pat).None?
    ensures r.Err? ==> r.error == PatternError(pat)
  {
    match Compile(pat)
    case None => Err(PatternError(pat))
    case Some(toks) => Ok(Matches(toks, name))
  }

  /** A character that has a meaning in a pattern. */
  predicate IsWildcard(c: char) {
    c == '*' || c == '?' || c == '['
  }

  predicate IsLiteralPattern(pat: string) {
    forall k :: 0 <= k < |pat| ==> !IsWildcard(pat[k])
  }

  function Literals(s: string): (r: seq<Token>)
    ensures |r| == |s|
    ensures forall k :: 0 <= k < |s| ==> r[k] == Literal(s[k])
  {
    if s == [] then [] else [Literal(s[0])] + Literals(s[1..])
  }

  lemma {:induction false} CompileLiteral(pat: string, i: nat)
    requires i <= |pat|
    requires IsLiteralPattern(pat)
    ensures Compile(pat, i) == Some(Literals(pat[i..]))
    decreases |pat| - i
  {
    if i < |pat| {
      CompileLiteral(pat, i + 1);
      assert pat[i..] == [pat[i]] + pat[i + 1..];
    }
  }

  lemma {:induction false} MatchesLiterals(lit: string, s: string)
    ensures Matches(Literals(lit), s) <==> s == lit
    decreases |lit|
  {
    if lit != [] {
      assert Literals(lit)[1..] == Literals(lit[1..]);
      if s != [] {
        MatchesLiterals(lit[1..], s[1..]);
        assert s == [s[0]] + s[1..] && lit == [lit[0]] + lit[1..];
      }
    }
  }

  /** A pattern without `*`, `?` or `[` matches exactly itself. */
  lemma LiteralPatternMatchesItself(pat: string, s: string)
    requires IsLiteralPattern(pat)
    ensures FnMatch(s, pat) == Ok(s == pat)
  {
    CompileLiteral(pat, 0);
    assert pat[0..] == pat;
    MatchesLiterals(pat, s);
  }

  lemma {:induction false} AnyRunMatchesAll(s: string)
    ensures Matches([AnyRun], s)
    decreases |s|
  {
    if s != [] {
      AnyRunMatchesAll(s[1..]);
    }
  }

  lemma {:induction false} MatchesLiteralsThenRun(lit: string, s: string)
    ensures Matches(Literals(lit) + [AnyRun], s) <==> StartsWith(s, lit)
    decreases |lit|
  {
    if lit == [] {
      assert Literals(lit) + [AnyRun] == [AnyRun];
      AnyRunMatchesAll(s);
    } else {
      assert (Literals(lit) + [AnyRun])[1..] == Literals(lit[1..]) + [AnyRun];
      if s != [] {
        MatchesLiteralsThenRun(lit[1..], s[1..]);
        assert s == [s[0]] + s[1..];
        if StartsWith(s, lit) {
          assert s[1..][..|lit| - 1] == lit[1..];
        }
        if StartsWith(s[1..], lit[1..]) && s[0] == lit[0] {
          assert s[..|lit|] == [s[0]] + s[1..][..|lit| - 1];
        }
      }
    }
  }

  /** A pattern `prefix*` matches exactly the names that start with `prefix`. */
  lemma PrefixPatternMatchesPrefix(prefix: string, s: string)
    requires IsLiteralPattern(prefix)
    ensures FnMatch(s, prefix + "*") == Ok(StartsWith(s, prefix))
  {
    var pat := prefix + "*";
    CompilePrefix(pat, prefix, 0);
    assert prefix[0..] == prefix;
    MatchesLiteralsThenRun(prefix, s);
  }

  lemma {:induction false} CompilePrefix(pat: string, prefix: string, i: nat)
    requires IsLiteralPattern(prefix)
    requires i <= |prefix| <= |pat| && pat[..|prefix|] == prefix
    requires pat == prefix + "*"
    ensures Compile(pat, i) == Some(Literals(prefix[i..]) + [AnyRun])
    decreases |prefix| - i
  {
    if i == |prefix| {
      assert pat[i] == '*';
      var none: seq<Token> := [];
      assert Compile(pat, i + 1) == Some(none);
      assert prefix[i..] == [] && Literals(prefix[i..]) == none;
      assert [AnyRun] + none == none + [AnyRun];
    } else {
      var rest := Literals(prefix[i + 1..]);
      assert Compile(pat, i) == Prepend(Literal(prefix[i]), Compile(pat, i + 1)) by {
        assert pat[i] == prefix[i] && !IsWildcard(prefix[i]);
      }
      assert Compile(pat, i + 1) == Some(rest + [AnyRun]) by {
        CompilePrefix(pat, prefix, i + 1);
      }
      assert Literals(prefix[i..]) == [Literal(prefix[i])] + rest by {
        assert prefix[i..] == [prefix[i]] + prefix[i + 1..];
      }
      ConsSnoc(Literal(prefix[i]), rest, AnyRun);
    }
  }

  lemma ConsSnoc(x: Token, ts: seq<Token>, y: Token)
    ensures [x] + (ts + [y]) == ([x] + ts) + [y]
  {
  }

  /** `*` matches every name. */
  lemma StarMatchesEverything(s: string)
    ensures FnMatch(s, "*") == Ok(true)
  {
    assert "*"[0] == '*';
    var none: seq<Token> := [];
    assert Compile("*", 1) == Some(none);
    assert [AnyRun] + none == [AnyRun];
    AnyRunMatchesAll(s);
  }

  /** A set with a descending range is rejected rather than matched. */
  lemma DescendingRangeRejected()
    ensures FnMatch("b", "[z-a]") == Err(PatternError("[z-a]"))
  {
    var pat := "[z-a]";
    assert SetEnd(pat, 1) == 4 by {
      assert CloseBracket(pat, 4) == 4;
      assert CloseBracket(pat, 3) == 4;
      assert CloseBracket(pat, 2) == 4;
    }
    assert pat[1..4] == "z-a";
    assert ParseClass("z-a") == None;
  }

  /** `[!seq]` matches a single character outside seq, and nothing longer. */
  lemma NegatedSetExample()
    ensures FnMatch("b", "[!a]") == Ok(true)
    ensures FnMatch("a", "[!a]") == Ok(false)
    ensures FnMatch("bb", "[!a]") == Ok(false)
  {
    var pat := "[!a]";
    assert SetEnd(pat, 1) == 3 by {
      assert CloseBracket(pat, 3) == 3;
      assert CloseBracket(pat, 2) == 3;
    }
    assert pat[1..3] == "!a";
    assert "!a"[1..] == "a";
    var body := "a";
    assert ParseClass(body) == Some([Single('a')]) by {
      assert |body| == 1 && body[0] == 'a';
      assert body[1..] == [];
      var none: seq<ClassItem> := [];
      assert ParseClass(body[1..]) == Some(none);
      assert [Single('a')] + none == [Single('a')];
    }
    assert pat[0] == '[';
    var none: seq<Token> := [];
    assert Compile(pat, 4) == Some(none);
    var toks := [Class(true, [Single('a')])];
    assert [Class(true, [Single('a')])] + none == toks;
    assert Compile(pat, 0) == Some(toks);
    assert !InClass([Single('a')], 'b') by {
      assert !ItemHolds(Single('a'), 'b');
    }
    assert InClass([Single('a')], 'a') by {
      assert ItemHolds([Single('a')][0], 'a');
    }
    assert "bb"[1..] == "b";
    assert !Matches([], "b");
  }
}
