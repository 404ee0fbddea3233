/** What `UniversalConfigParser.get_dict` computes: the documents of the listed files merged
    in order, then every string holding an `INSERT(...)` reference replaced by what it
    references (the nested functions `recursive_parse` and `INSERT` of
    `_interpret_keywords_and_update`). These functions are the specification the class in
    module ConfigParser is proved against. */
module Resolver {
  import opened Text
  import opened Values
  import opened Glob
  import opened NestedDict
  import opened FlattenLaws
  import opened ConfigTypes
  import opened InsertSyntax

  type Doc = map<Key, Value>

  /** What the parser sees of the file system: the mapping each loader returns for a file
      (keyed by configuration type and path; a pair that is missing is a file that cannot be
      read), `os.path.dirname(os.path.abspath(f))`, and the path that
      `os.path.join(dir, os.path.dirname(f), os.path.basename(f))` builds. */
  datatype Env = Env(docs: map<(string, Path), Doc>, dirOf: Path -> Path, join: (Path, Path) -> Path)

  /** The attributes of a parser object. `thisCfgDir` is `None` while the attribute does
      not exist, i.e. until a file has been read. */
  datatype ParserState = ParserState(cfgType: Option<string>, fileList: seq<Path>, cfgDict: Doc, thisCfgDir: Option<Path>)

  const NestedInsertMessage: string := "Multiple-level INSERT commands are not allowed. Check your configuration files."
  const ThisConfigMessage: string := "THIS_CONFIG is not yet implemented keyword!"
  const ThisConfig: string := "THIS_CONFIG"
  /** The attribute whose absence `INSERT` trips over when no file has been read. */
  const CfgDirAttribute: string := "this_cfg_dir"
  const WildcardChars: set<char> := {'*', '?', '[', ']', ','}

  // ---------------------------------------------------------------------------
  // Construction and loading
  // ---------------------------------------------------------------------------

  /** `UniversalConfigParser(cfg_type, file_list)`: the type is checked before the files. */
  function NewParser(typeArg: TypeArg, fileArg: FileArg): (r: Result<ParserState>)
    ensures SetCfgType(typeArg).Err? ==> r == Err(SetCfgType(typeArg).error)
    ensures SetCfgType(typeArg).Ok? && SetFiles(fileArg).Err? ==> r == Err(SetFiles(fileArg).error)
    ensures r.Ok? ==> r.value.cfgDict == map[] && r.value.thisCfgDir.None?
    ensures r.Ok? ==> SetCfgType(typeArg) == Ok(r.value.cfgType) && SetFiles(fileArg) == Ok(r.value.fileList)
  {
    var t :- SetCfgType(typeArg);
    var f :- SetFiles(fileArg);
    Ok(ParserState(t, f, map[], None))
  }

  /** One loader call: the mapping read from `file` as a configuration of type `cfgType`. */
  function Load(env: Env, cfgType: string, file: Path): (r: Result<Doc>)
    ensures r.Ok? <==> (cfgType, file) in env.docs
    ensures r.Err? ==> r.error == IOError(file)
  {
    if (cfgType, file) in env.docs then Ok(env.docs[(cfgType, file)]) else Err(IOError(file))
  }

  /** The loop of `get_dict` over the file list: each file sets the directory, fixes the
      type from its extension if none is known yet, and merges its mapping over what was
      read before (`dict.update`, one level deep). */
  function LoadFiles(env: Env, files: seq<Path>, st: ParserState): (r: (ParserState, Option<Error>))
    ensures r.0.fileList == st.fileList
    ensures files == [] ==> r == (st, None)
    ensures files != [] && r.1.None? ==> r.0.thisCfgDir == Some(env.dirOf(files[|files| - 1])) && r.0.cfgType.Some?
    ensures st.cfgType.Some? ==> r.0.cfgType == st.cfgType
    decreases |files|
  {
    if files == [] then (st, None)
    else
      var (st2, e) := LoadOne(env, files[0], st);
      if e.Some? then (st2, e) else LoadFiles(env, files[1..], st2)
  }

  /** One pass of that loop, for `file`. */
  function LoadOne(env: Env, file: Path, st: ParserState): (r: (ParserState, Option<Error>))
    ensures r.0.fileList == st.fileList && r.0.thisCfgDir == Some(env.dirOf(file))
    ensures r.1.None? ==> r.0.cfgType.Some?
    ensures st.cfgType.Some? ==> r.0.cfgType == st.cfgType
  {
    var st1 := st.(thisCfgDir := Some(env.dirOf(file)));
    var ty := if st1.cfgType.Some? then Ok(st1.cfgType.value) else GetCfgType(None, file);
    if ty.Err? then (st1, Some(ty.error))
    else
      var st2 := st1.(cfgType := Some(ty.value));
      var doc := Load(env, ty.value, file);
      if doc.Err? then (st2, Some(doc.error))
      else (st2.(cfgDict := st2.cfgDict + doc.value), None)
  }

  // ---------------------------------------------------------------------------
  // Selecting keys from a referenced configuration
  // ---------------------------------------------------------------------------

  /** `re.search(r'[\*\?\[\]\,]', string.join(keys))`: some key holds a wildcard or a comma. */
  predicate UsesWildcards(keys: seq<string>) {
    exists i, j :: 0 <= i < |keys| && 0 <= j < |keys[i]| && keys[i][j] in WildcardChars
  }

  /** `partial_config = partial_config[item]` for each key in turn. */
  function ExactLookup(v: Value, keys: seq<string>): (r: Result<Value>)
    ensures r.Ok? <==> Lookup(v, keys).Some?
    ensures r.Ok? ==> r.value == Lookup(v, keys).value
    ensures r.Err? ==> r.error == TypeError || (r.error.KeyError? && r.error.key in keys)
    decreases |keys|
  {
    if keys == [] then Ok(v)
    else if !v.Dict? then Err(TypeError)
    else if keys[0] !in v.entries then Err(KeyError(keys[0]))
    else ExactLookup(v.entries[keys[0]], keys[1..])
  }

  lemma SingletonMap(f: Flat)
    requires |f| == 1
    ensures exists k :: f.Keys == {k}
  {
    var k :| k in f.Keys;
    assert |f.Keys - {k}| == 0;
    assert f.Keys == {k};
  }

  /** The one value of a single-entry flat mapping (`d[d.keys()[0]]`). */
  function SoleValue(f: Flat): (v: Value)
    requires |f| == 1
    ensures forall k | k in f :: f[k] == v
  {
    SingletonMap(f);
    var k :| k in f;
    f[k]
  }

  /** The part of a referenced configuration that an `INSERT` with keys picks. With a
      wildcard the flattened configuration is filtered by the keys as patterns; a single
      surviving leaf is returned bare, otherwise the surviving leaves are rebuilt into a
      plain dict (`unflatten(...).to_dict()`, whose result does not depend on the order in
      which the leaves are visited: FlattenLaws.UnflattenOfFlatSubset). Without a wildcard
      the keys are looked up one level at a time. */
  function Select(full: Value, keys: seq<string>): (r: Result<Value>)
    requires full.Dict?
    ensures !UsesWildcards(keys) ==> (r.Ok? <==> Lookup(full, keys).Some?)
    ensures !UsesWildcards(keys) && r.Ok? ==> r.value == Lookup(full, keys).value
  {
    if UsesWildcards(keys) then
      var filtered :- FilterFlat(FlatOf(full), keys);
      if |filtered| == 1 then Ok(SoleValue(filtered))
      else Ok(ToDict(Prune(full, filtered.Keys, true)))
    else ExactLookup(full, keys)
  }

  // ---------------------------------------------------------------------------
  // INSERT and recursive_parse, with get_dict for the referenced files
  // ---------------------------------------------------------------------------

  /** `UniversalConfigParser(cfg_type="YAML", file_list=path).get_dict()` for the file an
      `INSERT` names, relative to the directory of the configuration being parsed. Every
      nested read spends one unit of `fuel`; running out stands for Python's recursion
      limit, which a file that references itself reaches. */
  function Fetch(env: Env, fuel: nat, dir: Option<Path>, filename: Path): (r: Result<Value>)
    ensures r.Ok? ==> r.value.Dict? && !r.value.nested
    ensures dir.None? ==> r == Err(AttributeError(CfgDirAttribute))
    decreases fuel, 0, 0
  {
    if dir.None? then Err(AttributeError(CfgDirAttribute))
    else if fuel == 0 then Err(RecursionLimit)
    else ReadConfig(env, fuel - 1, env.join(dir.value, filename))
  }

  /** The configuration type `INSERT` gives the parsers it opens. */
  const YamlTypeName: string := "YAML"

  /** `UniversalConfigParser(cfg_type='YAML', file_list=path).get_dict()`. */
  function ReadConfig(env: Env, fuel: nat, path: Path): (r: Result<Value>)
    ensures r.Ok? ==> r.value.Dict? && !r.value.nested
    decreases fuel, 4
  {
    var reader :- NewParser(TypeText(YamlTypeName), FilesText(path));
    GetDictSpec(env, fuel, reader, NoFiles, NoType).1
  }

  /** The token loop of `INSERT` from token `i` on, with `acc` the text built so far
      (`new_input_line`). A token counts as a reference whenever it equals one of the
      groups, even when it is a text token. */
  function InsertTokens(env: Env, fuel: nat, dir: Option<Path>, toks: seq<string>, groups: seq<string>,
                        enforce: bool, i: nat, acc: string): (r: Result<Value>)
    requires i <= |toks|
    ensures r.Ok? && enforce ==> r.value.Str? || r.value.Dict?
    decreases fuel, 0, |toks| - i
  {
    if i == |toks| then Ok(if enforce then Str(acc) else Null)
    else if toks[i] !in groups then
      InsertTokens(env, fuel, dir, toks, groups, enforce, i + 1, acc + toks[i])
    else
      var inputs := Split(toks[i], ':');
      if inputs[0] == ThisConfig then Err(RuntimeError(ThisConfigMessage))
      else
        var full :- Fetch(env, fuel, dir, inputs[0]);
        if |inputs| == 1 then Ok(full)
        else
          var partial :- Select(full, inputs[1..]);
          if !enforce then Ok(partial)
          else InsertTokens(env, fuel, dir, toks, groups, enforce, i + 1, acc + Show(partial))
  }

  /** `INSERT(input_line)`: a nested reference is refused before anything is read; the
      referenced value replaces the line as it is when the line is one reference
      (InsertSyntax.TypedSubstitution), and is printed into the text otherwise. */
  function Insert(env: Env, fuel: nat, dir: Option<Path>, line: string): (r: Result<Value>)
    ensures NestedInsert(line) ==> r == Err(RuntimeError(NestedInsertMessage))
    ensures !NestedInsert(line) && Groups(line) == [] ==> r == Ok(Str(line))
    decreases fuel, 1
  {
    if NestedInsert(line) then Err(RuntimeError(NestedInsertMessage))
    else
      var groups := Groups(line);
      var r := InsertTokens(env, fuel, dir, Tokens(line), groups, !TypedSubstitution(line, groups), 0, "");
      if groups == [] then
        TokensReassemble(line);
        assert Tokens(line) == [line];
        assert "" + line == line;
        assert !TypedSubstitution(line, groups);
        assert InsertTokens(env, fuel, dir, [line], [], true, 1, line) == Ok(Str(line));
        r
      else r
  }

  /** What a slot holding `v` holds once `recursive_parse` has visited it from its
      container, with the error that stopped the visit, if any. Containers are rewritten
      in place, so after an error they keep the slots already rewritten; a string whose
      `INSERT` fails keeps its text. Only strings in which `re.findall` finds a reference
      are handed to `INSERT`. */
  function Resolved(env: Env, fuel: nat, dir: Option<Path>, v: Value): (r: (Value, Option<Error>))
    ensures v.Dict? ==> r.0.Dict? && r.0.entries.Keys == v.entries.Keys && r.0.nested == v.nested
    ensures v.List? ==> r.0.List? && |r.0.items| == |v.items|
    ensures !v.Dict? && !v.List? && !(v.Str? && Groups(v.s) != []) ==> r == (v, None)
    ensures r.1.Some? && v.Str? ==> r.0 == v
    decreases fuel, 2, v
  {
    match v
    case Dict(entries, nested) =>
      var (m, e) := ResolveEntries(env, fuel, dir, v, entries.Keys, entries);
      (Dict(m, nested), e)
    case List(items) =>
      var (l, e) := ResolveItems(env, fuel, dir, v, 0, items);
      (List(l), e)
    case Str(s) =>
      if Groups(s) == [] then (v, None)
      else if Insert(env, fuel, dir, s).Ok? then (Insert(env, fuel, dir, s).value, None)
      else (v, Some(Insert(env, fuel, dir, s).error))
    case _ => (v, None)
  }

  /** The loop of `recursive_parse` over a dict `d`, visiting the keys of `todo` in
      increasing order; `acc` holds the slots as rewritten so far. Without an error the
      outcome does not depend on the visiting order: every slot holds its own resolved
      value. */
  function ResolveEntries(env: Env, fuel: nat, dir: Option<Path>, d: Value, todo: set<Key>, acc: map<Key, Value>)
    : (r: (map<Key, Value>, Option<Error>))
    requires d.Dict? && todo <= d.entries.Keys && todo <= acc.Keys
    ensures r.0.Keys == acc.Keys
    ensures forall k | k in acc && k !in todo :: r.0[k] == acc[k]
    ensures r.1.None? ==> forall k | k in todo ::
              Resolved(env, fuel, dir, d.entries[k]) == (r.0[k], None)
    ensures r.1.Some? ==> exists k | k in todo :: Resolved(env, fuel, dir, d.entries[k]).1 == r.1
    decreases fuel, 2, d, |todo|
  {
    if todo == {} then (acc, None)
    else
      var k := Least(todo);
      var (c, e) := Resolved(env, fuel, dir, d.entries[k]);
      if e.Some? then (acc[k := c], e)
      else ResolveEntries(env, fuel, dir, d, todo - {k}, acc[k := c])
  }

  /** The loop of `recursive_parse` over a list, from index `i` on. */
  function ResolveItems(env: Env, fuel: nat, dir: Option<Path>, l: Value, i: nat, acc: seq<Value>)
    : (r: (seq<Value>, Option<Error>))
    requires l.List? && i <= |l.items| && |acc| == |l.items|
    ensures |r.0| == |acc|
    ensures forall j | 0 <= j < i :: r.0[j] == acc[j]
    ensures r.1.None? ==> forall j | i <= j < |acc| ::
              Resolved(env, fuel, dir, l.items[j]) == (r.0[j], None)
    ensures r.1.Some? ==> exists j | i <= j < |acc| :: Resolved(env, fuel, dir, l.items[j]).1 == r.1
    decreases fuel, 2, l, |l.items| - i
  {
    if i == |l.items| then (acc, None)
    else
      var (c, e) := Resolved(env, fuel, dir, l.items[i]);
      if e.Some? then (acc[i := c], e)
      else ResolveItems(env, fuel, dir, l, i + 1, acc[i := c])
  }

  /** The argument handling that opens `get_dict(file_list, cfg_type)` on a parser in
      state `st`: a file argument replaces the file list, the mapping is emptied, and a
      type argument replaces the type. The error, if any, comes with the state the parser
      is left in. */
  function Prepare(st: ParserState, fileArg: FileArg, typeArg: TypeArg): (r: (ParserState, Option<Error>))
    ensures FileArgTruthy(fileArg) && SetFiles(fileArg).Err? ==> r == (st, Some(SetFiles(fileArg).error))
    ensures r.1.None? ==> r.0.cfgDict == map[] && r.0.thisCfgDir == st.thisCfgDir
    ensures r.1.None? && !FileArgTruthy(fileArg) ==> r.0.fileList == st.fileList
    ensures r.1.None? && !TypeArgTruthy(typeArg) ==> r.0.cfgType == st.cfgType
  {
    match PrepareFiles(st, fileArg)
    case Err(e) => (st, Some(e))
    case Ok(st1) => PrepareType(st1, typeArg)
  }

  /** The file argument of `get_dict`, when truthy, replaces the file list; the mapping
      is emptied. */
  function PrepareFiles(st: ParserState, fileArg: FileArg): (r: Result<ParserState>)
    ensures FileArgTruthy(fileArg) && SetFiles(fileArg).Err? ==> r == Err(SetFiles(fileArg).error)
    ensures r.Ok? ==> r.value.cfgDict == map[] && r.value.thisCfgDir == st.thisCfgDir && r.value.cfgType == st.cfgType
    ensures r.Ok? && !FileArgTruthy(fileArg) ==> r.value.fileList == st.fileList
  {
    var f := if FileArgTruthy(fileArg) then SetFiles(fileArg) else Ok(st.fileList);
    if f.Err? then Err(f.error) else Ok(st.(fileList := f.value, cfgDict := map[]))
  }

  /** The type argument of `get_dict`, when truthy, replaces the type. */
  function PrepareType(st: ParserState, typeArg: TypeArg): (r: (ParserState, Option<Error>))
    ensures r.0.cfgDict == st.cfgDict && r.0.thisCfgDir == st.thisCfgDir && r.0.fileList == st.fileList
    ensures r.1.None? && !TypeArgTruthy(typeArg) ==> r.0.cfgType == st.cfgType
    ensures TypeArgTruthy(typeArg) && SetCfgType(typeArg).Err? ==> r == (st, Some(SetCfgType(typeArg).error))
  {
    var t := if TypeArgTruthy(typeArg) then SetCfgType(typeArg) else Ok(st.cfgType);
    if t.Err? then (st, Some(t.error)) else (st.(cfgType := t.value), None)
  }

  /** `get_dict(file_list, cfg_type)` on a parser in state `st`: the new state and the
      returned dict. After Prepare, the files are merged in order, and the references
      are resolved with the directory of the last file. */
  function GetDictSpec(env: Env, fuel: nat, st: ParserState, fileArg: FileArg, typeArg: TypeArg)
    : (r: (ParserState, Result<Value>))
    ensures r.1.Ok? ==> r.1.value == Dict(r.0.cfgDict, false)
    ensures FileArgTruthy(fileArg) && SetFiles(fileArg).Err? ==> r == (st, Err(SetFiles(fileArg).error))
    decreases fuel, 3
  {
    var (st1, e0) := Prepare(st, fileArg, typeArg);
    if e0.Some? then (st1, Err(e0.value))
    else
      var (st3, e) := LoadFiles(env, st1.fileList, st1);
      if e.Some? then (st3, Err(e.value))
      else
        var merged := st3.cfgDict;
        var (m, e2) := ResolveEntries(env, fuel, st3.thisCfgDir, Dict(merged, false), merged.Keys, merged);
        (st3.(cfgDict := m), if e2.Some? then Err(e2.value) else Ok(Dict(m, false)))
  }
}
