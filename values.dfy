/** The values a loaded configuration holds (what YAML, JSON, XML or INI loaders
    produce in Python 2), the errors Python raises on them, and the two Python
    conversions the engine applies to them: truthiness and `str()`. */
module Values {
  import opened Text

  type Key = string
  type Path = string

  /** A configuration value. `Float` keeps the text `str()` prints for it, since
      floating-point arithmetic is not part of the model. `Dict` carries whether the
      mapping is a `nested_dict` (a `defaultdict` that creates missing children) or a
      plain `dict`. */
  datatype Value =
    | Str(s: string)
    | Int(i: int)
    | Float(text: string)
    | Bool(b: bool)
    | Null
    | List(items: seq<Value>)
    | Dict(entries: map<Key, Value>, nested: bool)

  /** The Python exceptions the modelled code can raise. */
  datatype Error =
    | KeyError(key: Key)
    | TypeError
    | IndexError
    | AssertionError(reason: string)
    | AttributeError(reason: string)
    | RuntimeError(reason: string)
    | UnboundLocalError(name: string)
    | IOError(path: Path)
    | PatternError(pattern: string)
    | RecursionLimit
    | NameError(name: string)

  datatype Option<T> = None | Some(value: T)

  datatype Result<T> = Ok(value: T) | Err(error: Error) {
    predicate IsFailure() {
      Err?
    }

    function PropagateFailure<U>(): Result<U>
      requires Err?
    {
      Err(error)
    }

    function Extract(): T
      requires Ok?
    {
      value
    }
  }

  /** An empty plain `dict()`. */
  const EmptyDict: Value := Dict(map[], false)

  /** Python truthiness (`if x:`). */
  predicate Truthy(v: Value) {
    match v
    case Str(s) => s != ""
    case Int(i) => i != 0
    case Float(t) => t != "0.0" && t != "-0.0"
    case Bool(b) => b
    case Null => false
    case List(items) => items != []
    case Dict(entries, _) => entries != map[]
  }

  /** `str(v)`: strings print bare, an integer in decimal (a `long` without the `L` its
      `repr` has), anything else as its `repr`. */
  function Show(v: Value): (r: string)
    ensures v.Str? ==> r == v.s
    ensures v.Int? ==> r == IntToString(v.i)
    ensures !v.Str? && !v.Int? ==> r == Repr(v)
    decreases v, 1
  {
    match v
    case Str(s) => s
    case Int(i) => IntToString(i)
    case _ => Repr(v)
  }

  /** `repr(v)`. Dict entries print in increasing key order. */
  function Repr(v: Value): (r: string)
    ensures v.Str? ==> ParseStringRepr(r) == Some(v.s)
    ensures v.Int? ==> |r| > 0 && (r[|r| - 1] == 'L' <==> IsLong(v.i))
    ensures v.Int? ==> r[..|r| - (if IsLong(v.i) then 1 else 0)] == IntToString(v.i)
    decreases v, 0
  {
    match v
    case Str(s) => ReprString(s)
    case Int(i) => if IsLong(i) then IntToString(i) + "L" else IntToString(i)
    case Float(t) => t
    case Bool(b) => if b then "True" else "False"
    case Null => "None"
    case List(items) =>
      "[" + Join(", ", seq(|items|, k requires 0 <= k < |items| => Repr(items[k]))) + "]"
    case Dict(entries, _) =>
      var ks := SortedOf(entries.Keys);
      "{" + Join(", ", seq(|ks|, k requires 0 <= k < |ks| => ReprString(ks[k]) + ": " + Repr(entries[ks[k]]))) + "}"
  }

  // ---------------------------------------------------------------------------
  // repr() of integers and strings in Python 2
  // ---------------------------------------------------------------------------

  /** `sys.maxint` of a 64-bit Python 2: an integer beyond it is a `long`. */
  const MaxInt: int := 0x7fff_ffff_ffff_ffff

  /** Whether an integer is a `long`, whose `repr` ends in `L`. */
  predicate IsLong(i: int) {
    i < -MaxInt - 1 || MaxInt < i
  }

  /** Whether every character of `s` is ASCII: the YAML loader gives such text as a
      `str` and any other text as a `unicode` object. */
  predicate IsAscii(s: string) {
    forall k :: 0 <= k < |s| ==> s[k] as int < 0x80
  }

  /** Text `repr` writes unchanged between single quotes: printable ASCII without a
      single quote or a backslash. */
  predicate IsPlainText(s: string) {
    forall k :: 0 <= k < |s| ==> 0x20 <= s[k] as int < 0x7f && s[k] != '\'' && s[k] != '\\'
  }

  /** The quote `repr` puts around `s`: a single quote unless `s` holds a single quote
      and no double quote. */
  function QuoteFor(s: string): char {
    if '\'' in s && '"' !in s then '"' else '\''
  }

  /** The lower-case hexadecimal digit of `d`. */
  function HexChar(d: nat): (c: char)
    requires d < 16
    ensures HexDigitValue(c) == Some(d)
  {
    if d < 10 then ('0' as int + d) as char else ('a' as int + d - 10) as char
  }

  /** The value of a hexadecimal digit. */
  function HexDigitValue(c: char): Option<nat> {
    if '0' <= c <= '9' then Some(c as int - '0' as int)
    else if 'a' <= c <= 'f' then Some(c as int - 'a' as int + 10)
    else if 'A' <= c <= 'F' then Some(c as int - 'A' as int + 10)
    else None
  }

  /** The last `w` hexadecimal digits of `n` (C's `%0<w>x`). */
  function Hex(n: nat, w: nat): (r: string)
    ensures |r| == w
  {
    if w == 0 then "" else Hex(n / 16, w - 1) + [HexChar(n % 16)]
  }

  /** The value of a string of hexadecimal digits, if it is one. */
  function HexValue(t: string): Option<nat> {
    if t == [] then Some(0)
    else
      match HexValue(t[..|t| - 1])
      case None => None
      case Some(high) =>
        match HexDigitValue(t[|t| - 1])
        case None => None
        case Some(low) => Some(16 * high + low)
  }

  function Pow16(w: nat): (r: nat)
    ensures r >= 1
  {
    if w == 0 then 1 else 16 * Pow16(w - 1)
  }

  /** `w` hexadecimal digits read back as the number they write. */
  lemma {:induction false} HexRoundTrip(n: nat, w: nat)
    requires n < Pow16(w)
    ensures HexValue(Hex(n, w)) == Some(n)
    decreases w
  {
    if w > 0 {
      var h := Hex(n, w);
      assert h[..|h| - 1] == Hex(n / 16, w - 1);
      HexRoundTrip(n / 16, w - 1);
    }
  }

  /** How `repr` writes one character inside the quote `q`: the quote and the backslash
      escaped by a backslash, tab, newline and carriage return by their letters, other
      control and non-ASCII characters as `\xhh`, `\uhhhh` or `\Uhhhhhhhh`. */
  function EscapeChar(c: char, q: char): string {
    var n := c as int;
    if c == q || c == '\\' then ['\\', c]
    else if n >= 0x1_0000 then "\\U" + Hex(n, 8)
    else if n >= 0x100 then "\\u" + Hex(n, 4)
    else if c == '\t' then "\\t"
    else if c == '\n' then "\\n"
    else if c == '\r' then "\\r"
    else if n < 0x20 || n >= 0x7f then "\\x" + Hex(n, 2)
    else [c]
  }

  /** Every character of `s` written as `repr` writes it inside the quote `q`. */
  function Escaped(s: string, q: char): string {
    if s == [] then "" else EscapeChar(s[0], q) + Escaped(s[1..], q)
  }

  /** `repr` of a string: a `u` before a `unicode` object, then the escaped text between
      quotes. */
  function ReprString(s: string): (r: string)
    ensures ParseStringRepr(r) == Some(s)
    ensures r[|r| - 1] == '"' <==> '\'' in s && '"' !in s
    ensures r[0] == 'u' <==> !IsAscii(s)
    ensures IsPlainText(s) ==> r == "'" + s + "'"
  {
    var q := QuoteFor(s);
    var b := [q] + Escaped(s, q) + [q];
    var r := (if IsAscii(s) then "" else "u") + b;
    QuotedReadsBack(s, q, b, r);
    QuotedEnds(s, q, b, r);
    assert IsPlainText(s) ==> r == "'" + s + "'" by {
      if IsPlainText(s) {
        EscapedPlain(s);
      }
    }
    r
  }

  /** A quoted, escaped string reads back as the string. */
  lemma QuotedReadsBack(s: string, q: char, b: string, r: string)
    requires q == '\'' || q == '"'
    requires b == [q] + Escaped(s, q) + [q]
    requires r == (if IsAscii(s) then "" else "u") + b
    ensures ParseStringRepr(r) == Some(s)
  {
    assert Unescape(b[1..|b| - 1]) == Some(s) by {
      assert b[1..|b| - 1] == Escaped(s, q);
      EscapedRoundTrip(s, q);
    }
    assert |b| >= 2 && b[0] == q && b[|b| - 1] == q;
    var stripped := if r != [] && r[0] == 'u' then r[1..] else r;
    assert stripped == b by {
      if IsAscii(s) {
        assert r == b && r[0] == q;
      } else {
        assert r[0] == 'u' && r[1..] == b;
      }
    }
  }

  /** The quote closes the string, and a `u` opens it exactly for a `unicode` object. */
  lemma QuotedEnds(s: string, q: char, b: string, r: string)
    requires q == QuoteFor(s)
    requires b == [q] + Escaped(s, q) + [q]
    requires r == (if IsAscii(s) then "" else "u") + b
    ensures r[|r| - 1] == '"' <==> '\'' in s && '"' !in s
    ensures r[0] == 'u' <==> !IsAscii(s)
  {
    assert r[|r| - 1] == b[|b| - 1] == q;
    if IsAscii(s) {
      assert r[0] == q;
    }
  }

  /** The character an escape letter stands for: `t`, `n` and `r` for the control
      characters, any other character for itself. */
  function EscapeLetter(c: char): char {
    if c == 't' then '\t' else if c == 'n' then '\n' else if c == 'r' then '\r' else c
  }

  /** How many hexadecimal digits follow an escape letter. */
  function HexWidth(c: char): nat {
    if c == 'x' then 2 else if c == 'u' then 4 else if c == 'U' then 8 else 0
  }

  function Prepend(c: char, rest: Option<string>): Option<string> {
    match rest
    case None => None
    case Some(t) => Some([c] + t)
  }

  /** Reads the text between the quotes of a string literal: the escapes `repr`
      writes are decoded; a backslash at the end or a bad number is refused. */
  function Unescape(t: string): Option<string>
    decreases |t|
  {
    if t == [] then Some([])
    else if t[0] != '\\' then Prepend(t[0], Unescape(t[1..]))
    else if |t| < 2 then None
    else
      var w := HexWidth(t[1]);
      if w == 0 then Prepend(EscapeLetter(t[1]), Unescape(t[2..]))
      else if |t| < 2 + w then None
      else
        match HexValue(t[2..2 + w])
        case None => None
        case Some(n) =>
          if 0 <= n < 0xD800 || 0xE000 <= n < 0x11_0000 then Prepend(n as char, Unescape(t[2 + w..]))
          else None
  }

  /** Reads back a string literal as `repr` writes it: an optional `u`, then text between
      matching quotes. */
  function ParseStringRepr(r: string): Option<string> {
    var b := if r != [] && r[0] == 'u' then r[1..] else r;
    if |b| >= 2 && (b[0] == '\'' || b[0] == '"') && b[|b| - 1] == b[0] then Unescape(b[1..|b| - 1])
    else None
  }

  /** An escaped `\x`, `\u` or `\U` character reads back. */
  lemma HexEscapeRoundTrip(c: char, letter: char, w: nat, rest: string)
    requires HexWidth(letter) == w && w > 0 && c as int < Pow16(w)
    ensures Unescape(['\\', letter] + Hex(c as int, w) + rest) == Prepend(c, Unescape(rest))
  {
    var t := ['\\', letter] + Hex(c as int, w) + rest;
    assert t[2..2 + w] == Hex(c as int, w) && t[2 + w..] == rest;
    HexRoundTrip(c as int, w);
  }

  /** One escaped character reads back as itself. */
  lemma EscapeCharRoundTrip(c: char, q: char, rest: string)
    requires q == '\'' || q == '"'
    ensures Unescape(EscapeChar(c, q) + rest) == Prepend(c, Unescape(rest))
  {
    var n := c as int;
    if c == q || c == '\\' {
      var t := ['\\', c] + rest;
      assert t[2..] == rest;
    } else if n >= 0x1_0000 {
      assert Pow16(8) == 0x1_0000_0000;
      assert "\\U" == ['\\', 'U'];
      HexEscapeRoundTrip(c, 'U', 8, rest);
    } else if n >= 0x100 {
      assert Pow16(4) == 0x1_0000;
      assert "\\u" == ['\\', 'u'];
      HexEscapeRoundTrip(c, 'u', 4, rest);
    } else if c == '\t' || c == '\n' || c == '\r' {
      var t := EscapeChar(c, q) + rest;
      assert t[0] == '\\' && EscapeLetter(t[1]) == c && HexWidth(t[1]) == 0 && t[2..] == rest;
    } else if n < 0x20 || n >= 0x7f {
      assert Pow16(2) == 0x100;
      assert "\\x" == ['\\', 'x'];
      HexEscapeRoundTrip(c, 'x', 2, rest);
    } else {
      assert ([c] + rest)[1..] == rest;
    }
  }

  /** The escaped text reads back as the text. */
  lemma {:induction false} EscapedRoundTrip(s: string, q: char)
    requires q == '\'' || q == '"'
    ensures Unescape(Escaped(s, q)) == Some(s)
    decreases |s|
  {
    if s != [] {
      EscapedRoundTrip(s[1..], q);
      EscapeCharRoundTrip(s[0], q, Escaped(s[1..], q));
      assert [s[0]] + s[1..] == s;
    }
  }

  /** Plain text is written unchanged. */
  lemma {:induction false} EscapedPlain(s: string)
    requires IsPlainText(s)
    ensures Escaped(s, '\'') == s
    decreases |s|
  {
    if s != [] {
      EscapedPlain(s[1..]);
      assert [s[0]] + s[1..] == s;
    }
  }

  /** The same value with every mapping reachable through mappings made a plain `dict`
      (what `to_dict` on a tree of `nested_dict`s produces). */
  function Plain(v: Value): (r: Value)
    ensures v.Dict? <==> r.Dict?
    ensures v.Dict? ==> r.entries.Keys == v.entries.Keys && !r.nested
    ensures !v.Dict? ==> r == v
    decreases v
  {
    match v
    case Dict(entries, _) => Dict(map k | k in entries :: Plain(entries[k]), false)
    case _ => v
  }

  /** Every mapping reachable through mappings is a plain `dict`. */
  predicate IsPlain(v: Value)
    decreases v
  {
    v.Dict? ==> !v.nested && forall k | k in v.entries :: IsPlain(v.entries[k])
  }

  /** `Plain` produces plain trees and leaves plain trees alone. */
  lemma {:induction false} PlainIsPlain(v: Value)
    ensures IsPlain(Plain(v))
    ensures IsPlain(v) ==> Plain(v) == v
    decreases v
  {
    if v.Dict? {
      forall k | k in v.entries
        ensures IsPlain(Plain(v.entries[k]))
        ensures IsPlain(v.entries[k]) ==> Plain(v.entries[k]) == v.entries[k]
      {
        PlainIsPlain(v.entries[k]);
      }
      if IsPlain(v) {
        assert Plain(v).entries == v.entries;
      }
    }
  }
}
