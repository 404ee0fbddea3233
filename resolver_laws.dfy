/** Properties of reference resolution and of `get_dict`: what is left alone, what a
    single reference turns into, which file a merged key comes from, and what a wildcard
    selection holds. */
module ResolverLaws {
  import opened Text
  import opened Values
  import opened NestedDict
  import opened FlattenLaws
  import opened ConfigTypes
  import opened InsertSyntax
  import opened Resolver

  // ---------------------------------------------------------------------------
  // Values without references are left alone
  // ---------------------------------------------------------------------------

  /** No string anywhere in `v` holds a match of `INSERT\((.+?)\)`. */
  predicate InsertFree(v: Value)
    decreases v
  {
    && (v.Str? ==> Groups(v.s) == [])
    && (v.List? ==> forall i | 0 <= i < |v.items| :: InsertFree(v.items[i]))
    && (v.Dict? ==> forall k | k in v.entries :: InsertFree(v.entries[k]))
  }

  /** `recursive_parse` changes nothing, reads nothing and raises nothing in a value
      without references, whatever the file system. */
  lemma {:induction false} InsertFreeUnchanged(env: Env, fuel: nat, dir: Option<Path>, v: Value)
    requires InsertFree(v)
    ensures Resolved(env, fuel, dir, v) == (v, None)
    decreases v
  {
    match v
    case Dict(entries, nested) =>
      forall k | k in entries ensures Resolved(env, fuel, dir, entries[k]) == (entries[k], None) {
        InsertFreeUnchanged(env, fuel, dir, entries[k]);
      }
      var r := ResolveEntries(env, fuel, dir, v, entries.Keys, entries);
      assert r.1.None?;
      assert r.0 == entries;
    case List(items) =>
      forall i | 0 <= i < |items| ensures Resolved(env, fuel, dir, items[i]) == (items[i], None) {
        InsertFreeUnchanged(env, fuel, dir, items[i]);
      }
      var r := ResolveItems(env, fuel, dir, v, 0, items);
      assert r.1.None?;
      assert r.0 == items;
    case _ =>
  }

  /** `get_dict` on files whose merged mapping holds no reference returns that mapping. */
  lemma GetDictWithoutReferences(env: Env, fuel: nat, st: ParserState, files: seq<Path>)
    requires files != []
    requires LoadFiles(env, files, st.(fileList := files, cfgDict := map[])).1.None?
    requires InsertFree(Dict(LoadFiles(env, files, st.(fileList := files, cfgDict := map[])).0.cfgDict, false))
    ensures GetDictSpec(env, fuel, st, FilesList(files), NoType)
         == (LoadFiles(env, files, st.(fileList := files, cfgDict := map[])).0,
             Ok(Dict(LoadFiles(env, files, st.(fileList := files, cfgDict := map[])).0.cfgDict, false)))
  {
    var st3 := LoadFiles(env, files, st.(fileList := files, cfgDict := map[])).0;
    InsertFreeUnchanged(env, fuel, st3.thisCfgDir, Dict(st3.cfgDict, false));
    assert st.(fileList := files, cfgDict := map[]).(cfgType := st.cfgType) == st.(fileList := files, cfgDict := map[]);
  }

  // ---------------------------------------------------------------------------
  // Nested references
  // ---------------------------------------------------------------------------

  /** A string holding `INSERT(INSERT(a)b)` is refused before any file is read, whatever
      the file system, and keeps its text in its slot. */
  lemma NestedReferenceRefused(env: Env, fuel: nat, dir: Option<Path>, a: string, b: string)
    requires forall m :: 0 <= m < |a| ==> !IsParen(a[m]) && a[m] != '\n'
    requires forall m :: 0 <= m < |b| ==> !IsParen(b[m])
    ensures var line := InsertOpen + InsertOpen + a + ")" + b + ")";
      Resolved(env, fuel, dir, Str(line)) == (Str(line), Some(RuntimeError(NestedInsertMessage)))
  {
    var line := InsertOpen + InsertOpen + a + ")" + b + ")";
    NestedReferenceDetected(a, b);
    var j := 14 + |a|;
    assert line[j] == ')';
    forall m | 8 <= m < j ensures line[m] != ')' && line[m] != '\n' {
      if m >= 14 { assert line[m] == a[m - 14]; }
    }
    CloseAtFirst(line, 8, j);
    assert line[..7] == InsertOpen && line[7] == 'I';
    assert MatchAt(line, 0).Some?;
    assert Groups(line) != [];
  }

  // ---------------------------------------------------------------------------
  // A line that is one reference
  // ---------------------------------------------------------------------------

  /** What a line holding the one reference `g` becomes, read directly off the
      reference: `THIS_CONFIG` is refused; without keys the whole referenced configuration
      is the value; with keys the selected part is, as it is when `typed` and as its
      printed text otherwise. */
  ghost function ReferenceOutcome(env: Env, fuel: nat, dir: Option<Path>, g: string, typed: bool): Result<Value> {
    var inputs := Split(g, ':');
    if inputs[0] == ThisConfig then Err(RuntimeError(ThisConfigMessage))
    else
      match Fetch(env, fuel, dir, inputs[0])
      case Err(e) => Err(e)
      case Ok(full) =>
        if |inputs| == 1 then Ok(full)
        else
          match Select(full, inputs[1..])
          case Err(e) => Err(e)
          case Ok(part) => if typed then Ok(part) else Ok(Str(Show(part)))
  }

  /** The token loop over the tokens of a one-reference line. */
  lemma ReferenceTokens(env: Env, fuel: nat, dir: Option<Path>, g: string, enforce: bool)
    requires g != []
    ensures InsertTokens(env, fuel, dir, ["", g, ""], [g], enforce, 0, "") == ReferenceOutcome(env, fuel, dir, g, !enforce)
  {
    assert "" !in [g];
    var inputs := Split(g, ':');
    if inputs[0] != ThisConfig && Fetch(env, fuel, dir, inputs[0]).Ok? && |inputs| > 1 {
      var sel := Select(Fetch(env, fuel, dir, inputs[0]).value, inputs[1..]);
      if sel.Ok? && enforce {
        var t := Show(sel.value);
        assert InsertTokens(env, fuel, dir, ["", g, ""], [g], enforce, 0, "")
            == InsertTokens(env, fuel, dir, ["", g, ""], [g], enforce, 1, "" + "");
        assert "" + "" == "";
        assert InsertTokens(env, fuel, dir, ["", g, ""], [g], enforce, 1, "")
            == InsertTokens(env, fuel, dir, ["", g, ""], [g], enforce, 2, "" + t);
        assert "" + t == t;
        assert InsertTokens(env, fuel, dir, ["", g, ""], [g], enforce, 2, t)
            == InsertTokens(env, fuel, dir, ["", g, ""], [g], enforce, 3, t + "");
        assert t + "" == t;
        assert InsertTokens(env, fuel, dir, ["", g, ""], [g], enforce, 3, t) == Ok(Str(t));
        assert ReferenceOutcome(env, fuel, dir, g, false) == Ok(Str(t));
      }
    }
  }

  /** `INSERT(g)` alone on a line: the value comes as it is exactly when `g` does not
      start with a letter of `INSERT(` (`lstrip` takes a set of characters, so
      `INSERT(TREE.yaml:k)` gives text). */
  lemma {:induction false} SingleReferenceInsert(env: Env, fuel: nat, dir: Option<Path>, g: string)
    requires g != []
    requires forall m :: 0 <= m < |g| ==> !IsParen(g[m]) && g[m] != '\n'
    ensures Insert(env, fuel, dir, InsertOpen + g + ")") == ReferenceOutcome(env, fuel, dir, g, g[0] !in InsertChars)
  {
    SingleReference(g);
    SingleReferenceTyped(g);
    ReferenceTokens(env, fuel, dir, g, g[0] in InsertChars);
  }

  /** `INSERT(THIS_CONFIG:...)` is refused. */
  lemma ThisConfigRefused(env: Env, fuel: nat, dir: Option<Path>, keys: string)
    requires forall m :: 0 <= m < |keys| ==> !IsParen(keys[m]) && keys[m] != '\n'
    ensures Insert(env, fuel, dir, InsertOpen + ThisConfig + ":" + keys + ")") == Err(RuntimeError(ThisConfigMessage))
  {
    var g := ThisConfig + ":" + keys;
    assert InsertOpen + ThisConfig + ":" + keys + ")" == InsertOpen + g + ")";
    assert g[..|ThisConfig|] == ThisConfig;
    assert g[|ThisConfig|] == ':' && ':' !in g[..|ThisConfig|];
    SingleReferenceInsert(env, fuel, dir, g);
  }

  /** A reference without keys returns the whole referenced configuration, and the text
      around it in the line is dropped. */
  lemma {:induction false} ReferenceWithoutKeys(env: Env, fuel: nat, dir: Option<Path>, toks: seq<string>,
                                               groups: seq<string>, enforce: bool, i: nat, j: nat, acc: string)
    requires i <= j < |toks|
    requires forall m | i <= m < j :: toks[m] !in groups
    requires toks[j] in groups && ':' !in toks[j] && toks[j] != ThisConfig
    requires Fetch(env, fuel, dir, toks[j]).Ok?
    ensures InsertTokens(env, fuel, dir, toks, groups, enforce, i, acc) == Fetch(env, fuel, dir, toks[j])
    decreases j - i
  {
    if i < j {
      ReferenceWithoutKeys(env, fuel, dir, toks, groups, enforce, i + 1, j, acc + toks[i]);
    } else {
      assert Split(toks[j], ':') == [toks[j]];
    }
  }

  // ---------------------------------------------------------------------------
  // References inside text
  // ---------------------------------------------------------------------------

  /** The token loop over `t0`, one reference `g` and `t1`: with `enforce_string` the
      printed value of a reference with keys is put between the texts; a reference
      without keys or one that fails ends the loop with its own outcome. */
  lemma TextAroundTokens(env: Env, fuel: nat, dir: Option<Path>, t0: string, g: string, t1: string, enforce: bool)
    requires t0 != g && t1 != g
    ensures var o := ReferenceOutcome(env, fuel, dir, g, false);
            InsertTokens(env, fuel, dir, [t0, g, t1], [g], enforce, 0, "")
            == if !enforce then ReferenceOutcome(env, fuel, dir, g, true)
               else if o.Ok? && o.value.Str? then Ok(Str(t0 + o.value.s + t1))
               else o
  {
    var toks := [t0, g, t1];
    assert t0 !in [g] && t1 !in [g];
    assert InsertTokens(env, fuel, dir, toks, [g], enforce, 0, "")
        == InsertTokens(env, fuel, dir, toks, [g], enforce, 1, "" + t0);
    assert "" + t0 == t0;
    var inputs := Split(g, ':');
    if inputs[0] != ThisConfig && Fetch(env, fuel, dir, inputs[0]).Ok? && |inputs| > 1 {
      var sel := Select(Fetch(env, fuel, dir, inputs[0]).value, inputs[1..]);
      if sel.Ok? && enforce {
        var t := Show(sel.value);
        assert InsertTokens(env, fuel, dir, toks, [g], enforce, 1, t0)
            == InsertTokens(env, fuel, dir, toks, [g], enforce, 2, t0 + t);
        assert InsertTokens(env, fuel, dir, toks, [g], enforce, 2, t0 + t)
            == InsertTokens(env, fuel, dir, toks, [g], enforce, 3, t0 + t + t1);
      }
    }
  }

  /** A reference inside text, `t0 + INSERT(g) + t1` with no `(` around it: unless
      `lstrip` and `rstrip` eat all of the text, the printed value of the reference
      replaces it and the text around it stays (`rate=INSERT(b.yaml:s:k) units` becomes
      `rate=42 units`); a failing reference gives its error, and one without keys the
      whole referenced configuration. */
  lemma EmbeddedReferenceInsert(env: Env, fuel: nat, dir: Option<Path>, t0: string, g: string, t1: string)
    requires g != []
    requires forall m :: 0 <= m < |g| ==> !IsParen(g[m]) && g[m] != '\n'
    requires forall m :: 0 <= m < |t0| ==> t0[m] != '('
    requires forall m :: 0 <= m < |t1| ==> t1[m] != '('
    requires t0 != g && t1 != g
    ensures var o := ReferenceOutcome(env, fuel, dir, g, false);
            !EatenAround(t0, g, t1) ==>
              Insert(env, fuel, dir, t0 + InsertOpen + g + ")" + t1)
              == if o.Ok? && o.value.Str? then Ok(Str(t0 + o.value.s + t1)) else o
    ensures EatenAround(t0, g, t1) ==>
              Insert(env, fuel, dir, t0 + InsertOpen + g + ")" + t1) == ReferenceOutcome(env, fuel, dir, g, true)
  {
    EmbeddedReference(t0, g, t1);
    EmbeddedReferenceTyped(t0, g, t1);
    TextAroundTokens(env, fuel, dir, t0, g, t1, !EatenAround(t0, g, t1));
  }

  /** The token loop from text token `m` on, when every later reference has keys and
      resolves: the values are filled in between the text tokens. */
  lemma {:induction false} FillTokens(env: Env, fuel: nat, dir: Option<Path>, toks: seq<string>, groups: seq<string>,
                                     vals: seq<string>, m: nat, acc: string)
    requires |toks| == 2 * |vals| + 1 && m <= |vals|
    requires forall i | m <= i <= |vals| :: toks[2 * i] !in groups
    requires forall i | m <= i < |vals| ::
               toks[2 * i + 1] in groups && ReferenceOutcome(env, fuel, dir, toks[2 * i + 1], false) == Ok(Str(vals[i]))
    ensures InsertTokens(env, fuel, dir, toks, groups, true, 2 * m, acc) == Ok(Str(acc + Fill(toks[2 * m..], vals[m..])))
    decreases |vals| - m
  {
    var i := 2 * m;
    var rest := toks[i..];
    assert InsertTokens(env, fuel, dir, toks, groups, true, i, acc)
        == InsertTokens(env, fuel, dir, toks, groups, true, i + 1, acc + toks[i]) by {
      TextStep(env, fuel, dir, toks, groups, i, acc);
    }
    if m == |vals| {
      assert rest == [toks[i]] && vals[m..] == [];
    } else {
      var v := vals[m];
      var f := Fill(toks[i + 2..], vals[m + 1..]);
      assert InsertTokens(env, fuel, dir, toks, groups, true, i + 1, acc + toks[i])
          == InsertTokens(env, fuel, dir, toks, groups, true, i + 2, acc + toks[i] + v) by {
        OutcomeStep(env, fuel, dir, toks, groups, i + 1, acc + toks[i], v);
      }
      assert InsertTokens(env, fuel, dir, toks, groups, true, i + 2, acc + toks[i] + v)
          == Ok(Str(acc + toks[i] + v + f)) by {
        FillTokens(env, fuel, dir, toks, groups, vals, m + 1, acc + toks[i] + v);
        assert 2 * (m + 1) == i + 2;
      }
      assert acc + Fill(rest, vals[m..]) == acc + toks[i] + v + f by {
        FillStep(toks, vals, m, acc);
      }
    }
  }

  /** A text token moves the token loop on with the text added. */
  lemma TextStep(env: Env, fuel: nat, dir: Option<Path>, toks: seq<string>, groups: seq<string>,
                 i: nat, acc: string)
    requires i < |toks| && toks[i] !in groups
    ensures InsertTokens(env, fuel, dir, toks, groups, true, i, acc)
         == InsertTokens(env, fuel, dir, toks, groups, true, i + 1, acc + toks[i])
  {
  }

  /** A reference whose printed outcome is `v` moves the token loop on with `v` added. */
  lemma OutcomeStep(env: Env, fuel: nat, dir: Option<Path>, toks: seq<string>, groups: seq<string>,
                    i: nat, acc: string, v: string)
    requires i < |toks| && toks[i] in groups
    requires ReferenceOutcome(env, fuel, dir, toks[i], false) == Ok(Str(v))
    ensures InsertTokens(env, fuel, dir, toks, groups, true, i, acc)
         == InsertTokens(env, fuel, dir, toks, groups, true, i + 1, acc + v)
  {
    var inputs := Split(toks[i], ':');
    assert inputs[0] != ThisConfig;
    assert Fetch(env, fuel, dir, inputs[0]).Ok?;
    assert |inputs| > 1;
  }

  /** A reference whose outcome is an error ends the token loop with that error. */
  lemma OutcomeFails(env: Env, fuel: nat, dir: Option<Path>, toks: seq<string>, groups: seq<string>,
                     i: nat, acc: string)
    requires i < |toks| && toks[i] in groups
    requires ReferenceOutcome(env, fuel, dir, toks[i], false).Err?
    ensures InsertTokens(env, fuel, dir, toks, groups, true, i, acc) == ReferenceOutcome(env, fuel, dir, toks[i], false)
  {
  }

  /** The token loop from text token `m` on, when the references before `k` resolve and
      reference `k` fails: the loop ends with that failure. */
  lemma {:induction false} FailingTokens(env: Env, fuel: nat, dir: Option<Path>, toks: seq<string>, groups: seq<string>,
                                        m: nat, k: nat, acc: string)
    requires m <= k && 2 * k + 1 < |toks|
    requires forall i | m <= i <= k :: toks[2 * i] !in groups
    requires forall i | m <= i < k :: toks[2 * i + 1] in groups
               && ReferenceOutcome(env, fuel, dir, toks[2 * i + 1], false).Ok?
               && ReferenceOutcome(env, fuel, dir, toks[2 * i + 1], false).value.Str?
    requires toks[2 * k + 1] in groups && ReferenceOutcome(env, fuel, dir, toks[2 * k + 1], false).Err?
    ensures InsertTokens(env, fuel, dir, toks, groups, true, 2 * m, acc) == ReferenceOutcome(env, fuel, dir, toks[2 * k + 1], false)
    decreases k - m
  {
    var i := 2 * m;
    assert InsertTokens(env, fuel, dir, toks, groups, true, i, acc)
        == InsertTokens(env, fuel, dir, toks, groups, true, i + 1, acc + toks[i]) by {
      TextStep(env, fuel, dir, toks, groups, i, acc);
    }
    if m == k {
      OutcomeFails(env, fuel, dir, toks, groups, i + 1, acc + toks[i]);
    } else {
      var v := ReferenceOutcome(env, fuel, dir, toks[i + 1], false).value.s;
      OutcomeStep(env, fuel, dir, toks, groups, i + 1, acc + toks[i], v);
      FailingTokens(env, fuel, dir, toks, groups, m + 1, k, acc + toks[i] + v);
    }
  }

  /** The tokens of a line alternate text and groups. */
  lemma TokensAlternate(line: string)
    ensures |Tokens(line)| == 2 * |Groups(line)| + 1
    ensures forall i :: 0 <= i < |Groups(line)| ==> Tokens(line)[2 * i + 1] == Groups(line)[i]
  {
  }

  /** A line whose references all have keys and resolve to printed values `vals`, and
      whose text is not taken for a reference: `INSERT` replaces each reference by its
      value and keeps the text between them (`Fill`, against `FillWrapped`). */
  lemma TextSubstitution(env: Env, fuel: nat, dir: Option<Path>, line: string, vals: seq<string>)
    requires !NestedInsert(line) && !TypedSubstitution(line, Groups(line))
    requires |vals| == |Groups(line)|
    requires forall i | 0 <= i <= |vals| :: 2 * i < |Tokens(line)| && Tokens(line)[2 * i] !in Groups(line)
    requires forall i | 0 <= i < |vals| :: ReferenceOutcome(env, fuel, dir, Groups(line)[i], false) == Ok(Str(vals[i]))
    ensures Insert(env, fuel, dir, line) == Ok(Str(Fill(Tokens(line), vals)))
  {
    TokensAlternate(line);
    var toks := Tokens(line);
    forall i | 0 <= i < |vals| ensures toks[2 * i + 1] in Groups(line) {
      assert toks[2 * i + 1] == Groups(line)[i];
    }
    FillTokens(env, fuel, dir, toks, Groups(line), vals, 0, "");
    assert toks[0..] == toks && vals[0..] == vals;
    assert "" + Fill(toks, vals) == Fill(toks, vals);
  }

  /** With text substitution, the first reference that fails decides the outcome of the
      line, whatever follows it. */
  lemma FirstFailingReference(env: Env, fuel: nat, dir: Option<Path>, line: string, k: nat)
    requires !NestedInsert(line) && !TypedSubstitution(line, Groups(line))
    requires k < |Groups(line)|
    requires forall i | 0 <= i <= k :: 2 * i < |Tokens(line)| && Tokens(line)[2 * i] !in Groups(line)
    requires forall i | 0 <= i < k :: ReferenceOutcome(env, fuel, dir, Groups(line)[i], false).Ok?
               && ReferenceOutcome(env, fuel, dir, Groups(line)[i], false).value.Str?
    requires ReferenceOutcome(env, fuel, dir, Groups(line)[k], false).Err?
    ensures Insert(env, fuel, dir, line) == ReferenceOutcome(env, fuel, dir, Groups(line)[k], false)
  {
    TokensAlternate(line);
    var toks, groups := Tokens(line), Groups(line);
    forall i | 0 <= i <= k ensures toks[2 * i + 1] in groups && toks[2 * i + 1] == groups[i] {
      assert toks[2 * i + 1] == groups[i];
    }
    FailingTokens(env, fuel, dir, toks, groups, 0, k, "");
    assert 2 * 0 == 0;
  }

  // ---------------------------------------------------------------------------
  // Loading: later files win, one level deep
  // ---------------------------------------------------------------------------

  /** Every file of the loop of `get_dict` was read with the type `t`. */
  ghost predicate AllRead(env: Env, files: seq<Path>, t: string) {
    forall i | 0 <= i < |files| :: (t, files[i]) in env.docs
  }

  /** The mappings of `files`, read with type `t`, laid over `base` one after the other
      with `dict.update`. */
  ghost function Overlay(env: Env, t: string, files: seq<Path>, base: Doc): Doc
    requires AllRead(env, files, t)
    decreases |files|
  {
    if files == [] then base else Overlay(env, t, files[1..], base + env.docs[(t, files[0])])
  }

  /** Every file was read with the type the first one fixed, and the mapping is the
      overlay of the files in list order. */
  lemma {:induction false} LoadedOverlay(env: Env, files: seq<Path>, st: ParserState)
    requires files != [] && LoadFiles(env, files, st).1.None?
    ensures AllRead(env, files, LoadFiles(env, files, st).0.cfgType.value)
    ensures LoadFiles(env, files, st).0.cfgDict
         == Overlay(env, LoadFiles(env, files, st).0.cfgType.value, files, st.cfgDict)
    decreases |files|
  {
    var st3 := LoadStep(env, files, st);
    var t := LoadFiles(env, files, st).0.cfgType.value;
    var rest := files[1..];
    if |files| > 1 {
      LoadedOverlay(env, rest, st3);
    }
    forall i | 0 <= i < |files| ensures (t, files[i]) in env.docs {
      if i > 0 { assert files[i] == rest[i - 1]; }
    }
  }

  /** The first file of the loop of `get_dict` read: the state the rest of the loop
      starts from. */
  lemma LoadStep(env: Env, files: seq<Path>, st: ParserState) returns (st3: ParserState)
    requires files != [] && LoadFiles(env, files, st).1.None?
    ensures LoadFiles(env, files, st) == LoadFiles(env, files[1..], st3)
    ensures st3.cfgType.Some? && st3.cfgType == LoadFiles(env, files, st).0.cfgType
    ensures (st3.cfgType.value, files[0]) in env.docs
    ensures st3.cfgDict == st.cfgDict + env.docs[(st3.cfgType.value, files[0])]
  {
    st3 := LoadOne(env, files[0], st).0;
  }

  lemma AllReadTail(env: Env, files: seq<Path>, t: string)
    requires files != [] && AllRead(env, files, t)
    ensures AllRead(env, files[1..], t) && (t, files[0]) in env.docs
  {
    forall i | 0 <= i < |files| - 1 ensures (t, files[1..][i]) in env.docs {
      assert files[1..][i] == files[i + 1];
    }
  }

  /** A key is in the overlay exactly when it is in the base or in some file. */
  lemma {:induction false} OverlayKeys(env: Env, t: string, files: seq<Path>, base: Doc, k: Key)
    requires AllRead(env, files, t)
    ensures k in Overlay(env, t, files, base) <==> k in base || exists i | 0 <= i < |files| :: k in env.docs[(t, files[i])]
    decreases |files|
  {
    if files != [] {
      AllReadTail(env, files, t);
      var rest := files[1..];
      OverlayKeys(env, t, rest, base + env.docs[(t, files[0])], k);
      if exists i | 0 <= i < |rest| :: k in env.docs[(t, rest[i])] {
        var i :| 0 <= i < |rest| && k in env.docs[(t, rest[i])];
        assert rest[i] == files[i + 1];
      }
      if exists i | 0 <= i < |files| :: k in env.docs[(t, files[i])] {
        var i :| 0 <= i < |files| && k in env.docs[(t, files[i])];
        if i > 0 { assert files[i] == rest[i - 1]; }
      }
    }
  }

  /** A key no file has keeps its value from the base. */
  lemma {:induction false} OverlayKept(env: Env, t: string, files: seq<Path>, base: Doc, k: Key)
    requires AllRead(env, files, t) && k in base
    requires forall i | 0 <= i < |files| :: k !in env.docs[(t, files[i])]
    ensures k in Overlay(env, t, files, base) && Overlay(env, t, files, base)[k] == base[k]
    decreases |files|
  {
    if files != [] {
      AllReadTail(env, files, t);
      var rest := files[1..];
      forall j | 0 <= j < |rest| ensures k !in env.docs[(t, rest[j])] {
        assert rest[j] == files[j + 1];
      }
      assert k !in env.docs[(t, files[0])];
      OverlayKept(env, t, rest, base + env.docs[(t, files[0])], k);
    }
  }

  /** A key some file has holds the value of the last file that has it. */
  lemma {:induction false} OverlayLastWins(env: Env, t: string, files: seq<Path>, base: Doc, k: Key, i: nat)
    requires AllRead(env, files, t) && i < |files| && k in env.docs[(t, files[i])]
    requires forall j | i < j < |files| :: k !in env.docs[(t, files[j])]
    ensures k in Overlay(env, t, files, base) && Overlay(env, t, files, base)[k] == env.docs[(t, files[i])][k]
    decreases |files|
  {
    AllReadTail(env, files, t);
    var rest := files[1..];
    var base' := base + env.docs[(t, files[0])];
    forall j | i <= j < |rest| ensures k !in env.docs[(t, rest[j])] {
      assert rest[j] == files[j + 1];
    }
    if i == 0 {
      OverlayKept(env, t, rest, base', k);
    } else {
      assert files[i] == rest[i - 1];
      OverlayLastWins(env, t, rest, base', k, i - 1);
    }
  }

  /** After the loop of `get_dict`, a key is present exactly when it was before or some
      file has it. */
  lemma LoadedKeys(env: Env, files: seq<Path>, st: ParserState, k: Key)
    requires files != [] && LoadFiles(env, files, st).1.None?
    ensures var out := LoadFiles(env, files, st).0;
      var t := out.cfgType.value;
      AllRead(env, files, t)
      && (k in out.cfgDict <==> k in st.cfgDict || exists i | 0 <= i < |files| :: k in env.docs[(t, files[i])])
  {
    LoadedOverlay(env, files, st);
    OverlayKeys(env, LoadFiles(env, files, st).0.cfgType.value, files, st.cfgDict, k);
  }

  /** After the loop of `get_dict`, a key some file has holds the value of the last file
      that has it. */
  lemma LoadedLastWins(env: Env, files: seq<Path>, st: ParserState, k: Key, i: nat)
    requires files != [] && LoadFiles(env, files, st).1.None?
    requires var t := LoadFiles(env, files, st).0.cfgType.value;
      i < |files| && (t, files[i]) in env.docs && k in env.docs[(t, files[i])]
      && forall j | i < j < |files| :: (t, files[j]) in env.docs && k !in env.docs[(t, files[j])]
    ensures var out := LoadFiles(env, files, st).0;
      k in out.cfgDict && out.cfgDict[k] == env.docs[(out.cfgType.value, files[i])][k]
  {
    LoadedOverlay(env, files, st);
    OverlayLastWins(env, LoadFiles(env, files, st).0.cfgType.value, files, st.cfgDict, k, i);
  }

  /** After the loop of `get_dict`, a key no file has keeps the value it had. */
  lemma LoadedKept(env: Env, files: seq<Path>, st: ParserState, k: Key)
    requires files != [] && LoadFiles(env, files, st).1.None? && k in st.cfgDict
    requires var t := LoadFiles(env, files, st).0.cfgType.value;
      forall i | 0 <= i < |files| :: (t, files[i]) in env.docs && k !in env.docs[(t, files[i])]
    ensures var out := LoadFiles(env, files, st).0;
      k in out.cfgDict && out.cfgDict[k] == st.cfgDict[k]
  {
    LoadedOverlay(env, files, st);
    OverlayKept(env, LoadFiles(env, files, st).0.cfgType.value, files, st.cfgDict, k);
  }

  // ---------------------------------------------------------------------------
  // Selections
  // ---------------------------------------------------------------------------

  /** With a wildcard, the selection holds exactly the leaves of the referenced
      configuration each of whose key patterns matches some level of the leaf's path: a
      lone such leaf bare, otherwise as a dict. */
  lemma WildcardSelection(full: Value, keys: seq<string>)
    requires full.Dict? && UsesWildcards(keys) && ValidTags(keys)
    ensures Select(full, keys).Ok?
    ensures var S := set p | p in FlatOf(full) && KeptBy(p, keys);
      && (|S| == 1 ==> forall p | p in S :: Select(full, keys).value == FlatOf(full)[p])
      && (|S| != 1 ==>
            Select(full, keys).value.Dict? && FlatOf(Select(full, keys).value) == map p | p in S :: FlatOf(full)[p])
  {
    var f := FlatOf(full);
    FilterOutcome(f, keys);
    var filtered := FilterFlat(f, keys).value;
    var S := set p | p in f && KeptBy(p, keys);
    assert filtered.Keys == S;
    assert |filtered| == |S|;
    if |S| != 1 {
      forall p | p in S ensures p in LeafPaths(full) {
        LeafPathsAreLeaves(full, p);
      }
      var pruned := Prune(full, S, true);
      PruneFlat(full, S, true);
      FlatIgnoresNesting(pruned, ToDict(pruned));
    }
  }

  /** The dict `unflatten` builds from the filtered leaves, visited in any order, is the
      one the selection returns. */
  lemma WildcardSelectionUnflattened(full: Value, keys: seq<string>, filtered: Flat, items: seq<(FlatKey, Value)>)
    requires full.Dict? && UsesWildcards(keys) && FilterFlat(FlatOf(full), keys) == Ok(filtered)
    requires Enumerates(items, filtered)
    ensures Unflatten(items).Ok? && Unflatten(items).value.Dict?
    ensures |filtered| != 1 ==> Select(full, keys) == Ok(ToDict(Unflatten(items).value))
  {
    FilterIsSubset(FlatOf(full), keys);
    UnflattenOfFlatSubset(full, filtered, items);
  }
}
