/** The argument checks of `UniversalConfigParser` (`set_files`, `set_cfg_type`,
    `_get_cfg_type`) and the module function `update_leaf`. */
module ConfigTypes {
  import opened Text
  import opened Values
  import opened NestedDict
  import opened FlattenLaws

  /** `UniversalConfigParser.supported_cfg_types`. */
  const SupportedCfgTypes: seq<string> := ["yaml", "xml", "json", "ini"]

  /** What may be passed as `cfg_type`: `None`, a string, or any other object. */
  datatype TypeArg = NoType | TypeText(text: string) | TypeOther(truthy: bool)

  /** What may be passed as `file_list`: `None`, a comma-separated string, a list of
      file names, or any other object. */
  datatype FileArg = NoFiles | FilesText(text: string) | FilesList(files: seq<Path>) | FilesOther(truthy: bool)

  predicate TypeArgTruthy(a: TypeArg) {
    match a
    case NoType => false
    case TypeText(t) => t != ""
    case TypeOther(truthy) => truthy
  }

  predicate FileArgTruthy(a: FileArg) {
    match a
    case NoFiles => false
    case FilesText(t) => t != ""
    case FilesList(fs) => fs != []
    case FilesOther(truthy) => truthy
  }

  // ---------------------------------------------------------------------------
  // set_cfg_type
  // ---------------------------------------------------------------------------

  /** `set_cfg_type(cfg_type)`: `None` stays `None`; a string is lower-cased and must be
      a supported type; anything else has no `lower` (AttributeError). */
  function SetCfgType(arg: TypeArg): (r: Result<Option<string>>)
    ensures r.Ok? ==> (r.value.None? <==> arg.NoType?)
    ensures r.Ok? && r.value.Some? ==>
      arg.TypeText? && r.value.value in SupportedCfgTypes && r.value.value == Lower(arg.text)
    ensures arg.TypeOther? ==> r.Err? && r.error.AttributeError?
    ensures arg.TypeText? ==> (r.Err? <==> Lower(arg.text) !in SupportedCfgTypes)
  {
    match arg
    case NoType => Ok(None)
    case TypeText(t) =>
      var lowered := Lower(t);
      if lowered in SupportedCfgTypes then Ok(Some(lowered))
      else Err(AssertionError("CFG type not supported.Supported CFG types are only ['yaml', 'xml', 'json', 'ini']"))
    case TypeOther(_) => Err(AttributeError("You have to provide a string as CFG type."))
  }

  lemma {:induction false} LowerIdempotent(s: string)
    ensures Lower(Lower(s)) == Lower(s)
  {
    forall i | 0 <= i < |s| ensures LowerChar(LowerChar(s[i])) == LowerChar(s[i]) {
    }
  }

  /** The type check ignores case: a type and its lower-cased form are accepted alike. */
  lemma SetCfgTypeIgnoresCase(s: string)
    ensures SetCfgType(TypeText(s)) == SetCfgType(TypeText(Lower(s)))
  {
    LowerIdempotent(s);
  }

  lemma SetCfgTypeExamples()
    ensures SetCfgType(TypeText("YAML")) == Ok(Some("yaml"))
    ensures SetCfgType(TypeText("yml")).Err?
  {
    assert Lower("YAML") == "yaml";
    assert Lower("yml") == "yml";
  }

  // ---------------------------------------------------------------------------
  // set_files
  // ---------------------------------------------------------------------------

  /** `set_files(file_list)`: `None` is no files; a list is taken as it is; a string has
      all whitespace removed and is split at commas; anything else fails the
      assertion. */
  function SetFiles(arg: FileArg): (r: Result<seq<Path>>)
    ensures r.Err? <==> arg.FilesOther?
    ensures arg.FilesText? ==> r.Ok? && |r.value| >= 1 && Join(",", r.value) == RemoveWhitespace(arg.text)
    ensures arg.FilesText? ==> forall i :: 0 <= i < |r.value| ==> ',' !in r.value[i]
  {
    match arg
    case NoFiles => Ok([])
    case FilesText(t) =>
      JoinSplit(RemoveWhitespace(t), ',');
      Ok(Split(RemoveWhitespace(t), ','))
    case FilesList(fs) => Ok(fs)
    case FilesOther(_) => Err(AssertionError("You should provide a list of files as list or as CVS string!"))
  }

  lemma {:induction false} JoinKeepsPieceChars(sep: string, xs: seq<string>, i: nat, c: char)
    requires i < |xs| && c in xs[i]
    ensures c in Join(sep, xs)
    decreases |xs|
  {
    if i > 0 {
      JoinKeepsPieceChars(sep, xs[1..], i - 1, c);
    }
  }

  /** No file name taken from a string holds whitespace. */
  lemma SetFilesTextHasNoSpaces(t: string, i: nat, j: nat)
    requires SetFiles(FilesText(t)).Ok? && i < |SetFiles(FilesText(t)).value|
    requires j < |SetFiles(FilesText(t)).value[i]|
    ensures !IsSpace(SetFiles(FilesText(t)).value[i][j])
  {
    var names := SetFiles(FilesText(t)).value;
    JoinKeepsPieceChars(",", names, i, names[i][j]);
  }

  lemma {:induction false} RemoveWhitespaceAppend(a: string, b: string)
    ensures RemoveWhitespace(a + b) == RemoveWhitespace(a) + RemoveWhitespace(b)
    decreases |a|
  {
    if a != [] {
      assert (a + b)[0] == a[0] && (a + b)[1..] == a[1..] + b;
      RemoveWhitespaceAppend(a[1..], b);
      if !IsSpace(a[0]) {
        assert RemoveWhitespace(a + b) == [a[0]] + RemoveWhitespace(a[1..] + b);
        assert RemoveWhitespace(a) == [a[0]] + RemoveWhitespace(a[1..]);
      }
    } else {
      assert a + b == b;
    }
  }

  lemma {:induction false} RemoveWhitespaceOfJoin(names: seq<string>)
    requires forall i :: 0 <= i < |names| ==> forall j :: 0 <= j < |names[i]| ==> !IsSpace(names[i][j])
    ensures RemoveWhitespace(Join(", ", names)) == Join(",", names)
    decreases |names|
  {
    if |names| == 1 {
      RemoveWhitespaceKeeps(names[0]);
    } else if |names| > 1 {
      RemoveWhitespaceOfJoin(names[1..]);
      RemoveWhitespaceAppend(names[0] + ", ", Join(", ", names[1..]));
      RemoveWhitespaceAppend(names[0], ", ");
      RemoveWhitespaceKeeps(names[0]);
      assert RemoveWhitespace(", ") == ",";
      assert Join(", ", names) == names[0] + ", " + Join(", ", names[1..]);
    }
  }

  /** A list of file names written as `"a.yaml, b.yaml"` reads back as the list. */
  lemma SetFilesReadsCsv(names: seq<Path>)
    requires names != []
    requires forall i :: 0 <= i < |names| ==> ',' !in names[i]
    requires forall i :: 0 <= i < |names| ==> forall j :: 0 <= j < |names[i]| ==> !IsSpace(names[i][j])
    ensures SetFiles(FilesText(Join(", ", names))) == Ok(names)
  {
    RemoveWhitespaceOfJoin(names);
    SplitJoin(names, ',');
  }

  // ---------------------------------------------------------------------------
  // _get_cfg_type
  // ---------------------------------------------------------------------------

  /** `s.rfind(c)`: the last index of `c`, or -1. */
  function LastIndex(s: string, c: char): (r: int)
    ensures -1 <= r < |s|
    ensures r >= 0 ==> s[r] == c
    ensures forall i :: r < i < |s| ==> s[i] != c
    decreases |s|
  {
    if s == [] then -1
    else if s[|s| - 1] == c then |s| - 1
    else LastIndex(s[..|s| - 1], c)
  }

  /** `os.path.splitext(p)[1]` on POSIX: from the last dot after the last slash, unless
      only dots precede it in the base name. */
  function Extension(p: string): (e: string)
    ensures e == [] || (e[0] == '.' && '.' !in e[1..] && '/' !in e)
  {
    var sep := LastIndex(p, '/');
    var dot := LastIndex(p, '.');
    if dot > sep && exists i :: sep + 1 <= i < dot && p[i] != '.' then p[dot..] else ""
  }

  /** `_get_cfg_type(file_name)`: the extension without dots, which must be a supported
      type. It is only ever called while no type is set; with a type already set the
      local `cfg_type` is unbound. */
  function GetCfgType(current: Option<string>, fileName: Path): (r: Result<string>)
    ensures r.Ok? ==> current.None? && r.value in SupportedCfgTypes
    ensures current.Some? ==> r == Err(UnboundLocalError("cfg_type"))
  {
    if current.Some? then Err(UnboundLocalError("cfg_type"))
    else
      var cfgType := ReplaceAll(Extension(fileName), ".", "");
      if cfgType in SupportedCfgTypes then Ok(cfgType)
      else Err(AssertionError("Cannont figure out the configuration file type. Supported CFG types are only ['yaml', 'xml', 'json', 'ini']"))
  }

  /** A file name `stem.ext` with a supported `ext` and a real base name gets type `ext`. */
  lemma GetCfgTypeFromExtension(stem: string, ext: string)
    requires ext in SupportedCfgTypes
    requires stem != [] && stem[|stem| - 1] != '/' && stem[|stem| - 1] != '.'
    ensures GetCfgType(None, stem + "." + ext) == Ok(ext)
  {
    assert '.' !in ext && '/' !in ext;
    ExtensionOf(stem, ext);
    assert !Contains(ext, ".") by {
      ContainsAt(ext, ".");
    }
    var e := "." + ext;
    assert e[..1] == "." && e[1..] == ext;
    assert ReplaceAll(e, ".", "") == "" + ReplaceAll(ext, ".", "");
    assert ReplaceAll(e, ".", "") == ext;
  }

  lemma ExtensionOf(stem: string, ext: string)
    requires '.' !in ext && '/' !in ext
    requires stem != [] && stem[|stem| - 1] != '/' && stem[|stem| - 1] != '.'
    ensures Extension(stem + "." + ext) == "." + ext
  {
    var p := stem + "." + ext;
    assert p[|stem|] == '.';
    forall i | |stem| < i < |p| ensures p[i] != '.' && p[i] != '/' {
      assert p[i] == ext[i - |stem| - 1];
    }
    var dot := LastIndex(p, '.');
    assert dot == |stem|;
    var sep := LastIndex(p, '/');
    assert p[|stem| - 1] == stem[|stem| - 1];
    assert sep < |stem| - 1;
    assert p[dot..] == "." + ext;
  }

  /** A name whose base starts with its only dot (a hidden file) has no extension. */
  lemma GetCfgTypeRejectsHidden()
    ensures GetCfgType(None, "cards/.yaml").Err?
  {
    var hidden := "cards/.yaml";
    assert hidden[5] == '/' && forall i :: 5 < i < |hidden| ==> hidden[i] != '/';
    assert LastIndex(hidden, '/') == 5;
    assert hidden[6] == '.' && forall i :: 6 < i < |hidden| ==> hidden[i] != '.';
    assert LastIndex(hidden, '.') == 6;
    assert Extension(hidden) == "";
  }

  /** Extensions are not lower-cased. */
  lemma GetCfgTypeRejectsUpperCase()
    ensures GetCfgType(None, "card.YAML").Err?
  {
    var upper := "card.YAML";
    assert forall i :: 0 <= i < |upper| ==> upper[i] != '/';
    assert LastIndex(upper, '/') == -1;
    assert upper[4] == '.' && forall i :: 4 < i < |upper| ==> upper[i] != '.';
    assert LastIndex(upper, '.') == 4;
    assert upper[0] != '.';
    assert Extension(upper) == ".YAML";
    assert ReplaceAll(".YAML", ".", "") == "YAML" by {
      assert !Contains("YAML", ".") by { ContainsAt("YAML", "."); }
    }
  }

  // ---------------------------------------------------------------------------
  // update_leaf
  // ---------------------------------------------------------------------------

  /** `update_leaf(initial_dict, update_dict)`: both are copied into `nested_dict`s, the
      first is updated with the second, and the result is converted back to plain
      dicts. The outcome is the leaf-wise deep merge. */
  method UpdateLeaf(initialDict: Value, updateDict: Value) returns (r: Value)
    requires initialDict.Dict? && updateDict.Dict?
    ensures r == DeepMerge(initialDict, updateDict)
  {
    var ndInitial := new NestedDictionary.FromDict(initialDict);
    var ndUpdate := new NestedDictionary.FromDict(updateDict);
    ndInitial.Update(ndUpdate.AsValue());
    r := ndInitial.ToPlainDict();
    LeafUpdateIsDeepMerge(initialDict, updateDict);
  }

  lemma LeafUpdateIsDeepMerge(a: Value, b: Value)
    requires a.Dict? && b.Dict?
    ensures ToDict(RecursiveUpdate(NestedFromDict(a), NestedFromDict(b))) == DeepMerge(a, b)
  {
    var x := RecursiveUpdate(NestedFromDict(a), NestedFromDict(b));
    NestedFromDictAllNested(a);
    NestedFromDictAllNested(b);
    RecursiveUpdateAllNested(NestedFromDict(a), NestedFromDict(b));
    ToDictPlain(x);
    RecursiveUpdateIsDeepMerge(NestedFromDict(a), NestedFromDict(b));
    DeepMergeOfNestedFromDict(a, b);
  }

  /** The example of the `update_leaf` documentation. */
  lemma UpdateLeafDocExample()
    ensures DeepMerge(
        Dict(map["a" := Int(1), "b" := Dict(map["c" := Int(2), "d" := Str("3")], false)], false),
        Dict(map["a" := Int(2), "b" := Dict(map["c" := Int(3), "e" := Str("3")], false)], false))
      == Dict(map["a" := Int(2), "b" := Dict(map["c" := Int(3), "e" := Str("3"), "d" := Str("3")], false)], false)
  {
    var ab := Dict(map["c" := Int(2), "d" := Str("3")], false);
    var bb := Dict(map["c" := Int(3), "e" := Str("3")], false);
    var inner := DeepMerge(ab, bb);
    assert inner.entries == map["c" := Int(3), "e" := Str("3"), "d" := Str("3")];
    var a := Dict(map["a" := Int(1), "b" := ab], false);
    var b := Dict(map["a" := Int(2), "b" := bb], false);
    assert DeepMerge(a, b).entries == map["a" := Int(2), "b" := inner];
  }
}
