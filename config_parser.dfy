/** The parser object of `UniversalConfigParser.py`: construction, `get_dict`, and the
    nested `recursive_parse` and `INSERT` of `_interpret_keywords_and_update`, written as
    the step-by-step code they are and proved equal to the functions of module Resolver. */
module ConfigParser {
  import opened Text
  import opened Values
  import opened NestedDict
  import opened FlattenLaws
  import opened ConfigTypes
  import opened InsertSyntax
  import opened Resolver
  import opened ResolverLaws

  /** The key selection of `INSERT` for a referenced configuration `fullConfig`: with a
      wildcard, flatten, filter by the keys and unflatten, keeping a lone leaf bare;
      otherwise one lookup per key. */
  method SelectKeys(fullConfig: Value, keys: seq<string>) returns (r: Result<Value>)
    requires fullConfig.Dict?
    ensures r == Select(fullConfig, keys)
  {
    if UsesWildcards(keys) {
      var flat := Flatten(fullConfig);
      var filtered := FilterFlattenDict(flat, keys);
      if filtered.Err? {
        return Err(filtered.error);
      }
      var items := ItemsOf(filtered.value);
      var unflattened := UnflattenItems(items);
      WildcardSelectionUnflattened(fullConfig, keys, filtered.value, items);
      var partialConfig := ToDict(unflattened.value);
      if |filtered.value| == 1 {
        partialConfig := SoleValue(filtered.value);
      }
      return Ok(partialConfig);
    }
    var partialConfig := fullConfig;
    var j := 0;
    while j < |keys|
      invariant 0 <= j <= |keys|
      invariant ExactLookup(partialConfig, keys[j..]) == ExactLookup(fullConfig, keys)
    {
      if !partialConfig.Dict? {
        return Err(TypeError);
      }
      if keys[j] !in partialConfig.entries {
        return Err(KeyError(keys[j]));
      }
      assert keys[j..][1..] == keys[j + 1..];
      partialConfig := partialConfig.entries[keys[j]];
      j := j + 1;
    }
    return Ok(partialConfig);
  }

  class UniversalConfigParser {
    var cfgType: Option<string>
    var fileList: seq<Path>
    var cfgDict: Doc
    /** `None` while the attribute `this_cfg_dir` does not exist. */
    var thisCfgDir: Option<Path>

    function State(): ParserState
      reads this
    {
      ParserState(cfgType, fileList, cfgDict, thisCfgDir)
    }

    constructor FromState(st: ParserState)
      ensures State() == st
    {
      cfgType := st.cfgType;
      fileList := st.fileList;
      cfgDict := st.cfgDict;
      thisCfgDir := st.thisCfgDir;
    }

    /** `UniversalConfigParser(cfg_type, file_list)`: the type is checked and lower-cased,
        then the file list is checked and split, and the mapping starts empty. */
    static method Create(typeArg: TypeArg, fileArg: FileArg) returns (r: Result<UniversalConfigParser>)
      ensures NewParser(typeArg, fileArg).Err? ==> r.Err? && r.error == NewParser(typeArg, fileArg).error
      ensures NewParser(typeArg, fileArg).Ok? ==>
                r.Ok? && fresh(r.value) && r.value.State() == NewParser(typeArg, fileArg).value
    {
      var checked := NewParser(typeArg, fileArg);
      if checked.Err? {
        return Err(checked.error);
      }
      var p := new UniversalConfigParser.FromState(checked.value);
      return Ok(p);
    }

    /** `get_dict(file_list, cfg_type)`. */
    method GetDict(env: Env, fuel: nat, fileArg: FileArg, typeArg: TypeArg) returns (r: Result<Value>)
      modifies this
      ensures (State(), r) == GetDictSpec(env, fuel, old(State()), fileArg, typeArg)
      decreases fuel, 3
    {
      var e0 := ApplyArguments(fileArg, typeArg);
      if e0.Some? {
        return Err(e0.value);
      }
      var e := LoadAll(env);
      if e.Some? {
        return Err(e.value);
      }
      r := InterpretKeywords(env, fuel);
    }

    /** The opening of `get_dict`: the file and type arguments, and the emptied mapping. */
    method ApplyArguments(fileArg: FileArg, typeArg: TypeArg) returns (err: Option<Error>)
      modifies this
      ensures (State(), err) == Prepare(old(State()), fileArg, typeArg)
    {
      err := ApplyFiles(fileArg);
      if err.Some? {
        return;
      }
      err := ApplyType(typeArg);
    }

    /** `if file_list: self.file_list = self.set_files(file_list)` and the emptied
        mapping. */
    method ApplyFiles(fileArg: FileArg) returns (err: Option<Error>)
      modifies this
      ensures err.Some? ==> State() == old(State()) && PrepareFiles(old(State()), fileArg) == Err(err.value)
      ensures err.None? ==> PrepareFiles(old(State()), fileArg) == Ok(State())
    {
      if FileArgTruthy(fileArg) {
        var f := SetFiles(fileArg);
        if f.Err? {
          return Some(f.error);
        }
        fileList := f.value;
      }
      cfgDict := map[];
      return None;
    }

    /** `if cfg_type: self.cfg_type = self.set_cfg_type(cfg_type)`. */
    method ApplyType(typeArg: TypeArg) returns (err: Option<Error>)
      modifies this
      ensures (State(), err) == PrepareType(old(State()), typeArg)
    {
      if TypeArgTruthy(typeArg) {
        var t := SetCfgType(typeArg);
        if t.Err? {
          return Some(t.error);
        }
        cfgType := t.value;
      }
      return None;
    }

    /** The loop of `get_dict` over `file_list`. */
    method LoadAll(env: Env) returns (err: Option<Error>)
      modifies this
      ensures (State(), err) == LoadFiles(env, old(fileList), old(State()))
    {
      var i := 0;
      while i < |fileList|
        invariant 0 <= i <= |fileList|
        invariant fileList == old(fileList)
        invariant LoadFiles(env, fileList[i..], State()) == LoadFiles(env, old(fileList), old(State()))
      {
        assert fileList[i..][1..] == fileList[i + 1..];
        err := LoadFile(env, fileList[i]);
        if err.Some? {
          return;
        }
        i := i + 1;
      }
      return None;
    }

    /** One pass of that loop: the directory of the file is remembered, the type
        guessed from the first file when none is set, and the file's mapping laid over
        `cfg_dict`. */
    method LoadFile(env: Env, cfgFile: Path) returns (err: Option<Error>)
      modifies this
      ensures (State(), err) == LoadOne(env, cfgFile, old(State()))
    {
      thisCfgDir := Some(env.dirOf(cfgFile));
      if cfgType.None? {
        var t := GetCfgType(cfgType, cfgFile);
        if t.Err? {
          return Some(t.error);
        }
        cfgType := Some(t.value);
      }
      var doc := Load(env, cfgType.value, cfgFile);
      if doc.Err? {
        return Some(doc.error);
      }
      cfgDict := cfgDict + doc.value;
      return None;
    }

    /** `_interpret_keywords_and_update(self.cfg_dict)`: `recursive_parse` over the
        top-level mapping; after an error the mapping keeps the slots already rewritten. */
    method InterpretKeywords(env: Env, fuel: nat) returns (r: Result<Value>)
      modifies this
      ensures var (m, e) := ResolveEntries(env, fuel, old(thisCfgDir), Dict(old(cfgDict), false), old(cfgDict).Keys, old(cfgDict));
              State() == old(State()).(cfgDict := m) && r == (if e.Some? then Err(e.value) else Ok(Dict(m, false)))
      decreases fuel, 3, 0
    {
      var m, e := ParseEntries(env, fuel, Dict(cfgDict, false));
      cfgDict := m;
      if e.Some? {
        return Err(e.value);
      }
      return Ok(Dict(cfgDict, false));
    }

    /** `recursive_parse` for the slot holding `v`: the value the slot holds afterwards
        and the error that stopped the walk, if any. */
    method RecursiveParse(env: Env, fuel: nat, v: Value) returns (c: Value, err: Option<Error>)
      ensures (c, err) == Resolved(env, fuel, thisCfgDir, v)
      decreases fuel, 2, v
    {
      match v
      case Dict(entries, nested) =>
        var m, e := ParseEntries(env, fuel, v);
        return Dict(m, nested), e;
      case List(items) =>
        var l, e := ParseItems(env, fuel, v);
        return List(l), e;
      case Str(s) =>
        if Groups(s) == [] {
          return v, None;
        }
        var x := InsertLine(env, fuel, s);
        if x.Ok? {
          return x.value, None;
        }
        return v, Some(x.error);
      case _ =>
        return v, None;
    }

    /** The loop of `recursive_parse` over the keys of a dict, rewriting each slot. */
    method ParseEntries(env: Env, fuel: nat, d: Value) returns (m: map<Key, Value>, err: Option<Error>)
      requires d.Dict?
      ensures (m, err) == ResolveEntries(env, fuel, thisCfgDir, d, d.entries.Keys, d.entries)
      decreases fuel, 2, d, 0
    {
      m := d.entries;
      var todo := d.entries.Keys;
      while todo != {}
        invariant todo <= d.entries.Keys && todo <= m.Keys
        invariant ResolveEntries(env, fuel, thisCfgDir, d, todo, m)
               == ResolveEntries(env, fuel, thisCfgDir, d, d.entries.Keys, d.entries)
        decreases |todo|
      {
        var key := Least(todo);
        var c, e := RecursiveParse(env, fuel, d.entries[key]);
        m := m[key := c];
        if e.Some? {
          return m, e;
        }
        todo := todo - {key};
      }
      return m, None;
    }

    /** The loop of `recursive_parse` over the items of a list, rewriting each slot. */
    method ParseItems(env: Env, fuel: nat, l: Value) returns (items: seq<Value>, err: Option<Error>)
      requires l.List?
      ensures (items, err) == ResolveItems(env, fuel, thisCfgDir, l, 0, l.items)
      decreases fuel, 2, l, 0
    {
      items := l.items;
      var idx := 0;
      while idx < |l.items|
        invariant 0 <= idx <= |l.items| && |items| == |l.items|
        invariant ResolveItems(env, fuel, thisCfgDir, l, idx, items) == ResolveItems(env, fuel, thisCfgDir, l, 0, l.items)
      {
        var c, e := RecursiveParse(env, fuel, l.items[idx]);
        items := items[idx := c];
        if e.Some? {
          return items, e;
        }
        idx := idx + 1;
      }
      return items, None;
    }

    /** `INSERT(input_line)`: tokenise, refuse a nested reference, decide between typed
        and textual substitution, then walk the tokens, reading each referenced file with
        a parser of its own. */
    method InsertLine(env: Env, fuel: nat, inputLine: string) returns (r: Result<Value>)
      ensures r == Insert(env, fuel, thisCfgDir, inputLine)
      decreases fuel, 1
    {
      var tokens := Tokens(inputLine);
      var matchingTokens := Groups(inputLine);
      if NestedInsert(inputLine) {
        return Err(RuntimeError(NestedInsertMessage));
      }
      var newInputLine := "";
      var enforceString := true;
      if |matchingTokens| == 1 {
        var stripedLine := Stripped(inputLine);
        if matchingTokens[0] == stripedLine {
          enforceString := false;
        }
      }
      var i := 0;
      while i < |tokens|
        invariant 0 <= i <= |tokens|
        invariant InsertTokens(env, fuel, thisCfgDir, tokens, matchingTokens, enforceString, i, newInputLine)
               == Insert(env, fuel, thisCfgDir, inputLine)
      {
        var finished, res, acc := InsertToken(env, fuel, tokens, matchingTokens, enforceString, i, newInputLine);
        if finished {
          return res;
        }
        newInputLine := acc;
        i := i + 1;
      }
      if enforceString {
        return Ok(Str(newInputLine));
      }
      return Ok(Null);
    }

    /** One pass of the token loop of `INSERT`: a text token is appended; a reference is
        read, and either ends the call or has its value printed into the text. */
    method InsertToken(env: Env, fuel: nat, tokens: seq<string>, matchingTokens: seq<string>, enforceString: bool,
                       i: nat, newInputLine: string)
      returns (finished: bool, r: Result<Value>, acc: string)
      requires i < |tokens|
      ensures finished ==> r == InsertTokens(env, fuel, thisCfgDir, tokens, matchingTokens, enforceString, i, newInputLine)
      ensures !finished ==>
                InsertTokens(env, fuel, thisCfgDir, tokens, matchingTokens, enforceString, i, newInputLine)
                == InsertTokens(env, fuel, thisCfgDir, tokens, matchingTokens, enforceString, i + 1, acc)
      decreases fuel, 0, 1
    {
      var tok := tokens[i];
      if tok !in matchingTokens {
        return false, Ok(Null), newInputLine + tok;
      }
      var inputs := Split(tok, ':');
      var filename := inputs[0];
      var keys := inputs[1..];
      if filename == ThisConfig {
        return true, Err(RuntimeError(ThisConfigMessage)), newInputLine;
      }
      var fullConfig := ReadReference(env, fuel, filename);
      if fullConfig.Err? || |keys| == 0 {
        return true, fullConfig, newInputLine;
      }
      var partialConfig := SelectKeys(fullConfig.value, keys);
      if partialConfig.Err? || !enforceString {
        return true, partialConfig, newInputLine;
      }
      return false, Ok(Null), newInputLine + Show(partialConfig.value);
    }

    /** The parser `INSERT` opens for `filename`, relative to `this_cfg_dir`, and the
        dict its `get_dict` returns. */
    method ReadReference(env: Env, fuel: nat, filename: Path) returns (r: Result<Value>)
      ensures r == Fetch(env, fuel, thisCfgDir, filename)
      decreases fuel, 0, 0
    {
      if thisCfgDir.None? {
        return Err(AttributeError(CfgDirAttribute));
      }
      if fuel == 0 {
        return Err(RecursionLimit);
      }
      r := ReadConfigFile(env, fuel - 1, env.join(thisCfgDir.value, filename));
    }

    /** A fresh YAML parser on `path` and the dict its `get_dict` returns. */
    static method ReadConfigFile(env: Env, fuel: nat, path: Path) returns (r: Result<Value>)
      ensures r == ReadConfig(env, fuel, path)
      decreases fuel, 4
    {
      var created := Create(TypeText(YamlTypeName), FilesText(path));
      if created.Err? {
        return Err(created.error);
      }
      var anotherCfgReader := created.value;
      ghost var st := anotherCfgReader.State();
      r := anotherCfgReader.GetDict(env, fuel, NoFiles, NoType);
      assert r == GetDictSpec(env, fuel, st, NoFiles, NoType).1;
    }
  }
}
