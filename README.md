# Datacards13TeV configuration engine and datacard tables, in Dafny

This project models the core of the HZZ4l `Datacards13TeV` tools, which write the
text datacards read by the `combine` limit tool. It covers two parts.

- **The configuration engine** (`LegoCards/lib/util`):
  - the `nested_dict` toolkit: `flatten`, `unflatten`, `filter_flatten_dict`,
    `_recursive_update` / `nested_dict.update`, `to_dict` and `nested_dict_from_dict`;
  - `UniversalConfigParser`: `set_cfg_type`, `set_files`, `_get_cfg_type`,
    `update_leaf`, the load-and-merge loop of `get_dict`, and reference resolution
    (`recursive_parse` and `INSERT(file:key:...)`).
- **The datacard table logic** of the two builders:
  - `LegoCards` in `LegoCards/build_datacard.py`;
  - its older copy `DatacardBuilder` in `build_datacard.py`.

  Both split the processes into sorted signal and background lists, number them for
  `combine`, and write the `bin`/`process`/`rate` lines, the systematics table and the
  `shapes` line. `LegoCards` also reduces and overrides the systematics dictionary and
  checks RooFit factory statements.

Data model (`values.dfy`):
- A configuration value is a `Value`: string, int, float, bool, null, list, or a
  mapping. A mapping carries a flag saying whether it is a `nested_dict` (a
  `defaultdict` that creates missing children) or a plain `dict`, because several
  operations branch on that difference.
- Python exceptions are the `Error` datatype.
- Every operation that can raise returns a `Result`.
- Floats keep the text `str()` prints for them.

Where the source mutates state, the model uses classes:
- `UniversalConfigParser` holds `cfg_type`, `file_list`, `cfg_dict` and `this_cfg_dir`
  as fields.
- `NestedDictionary` wraps the entries of a `nested_dict`.
- `LegoCards` and `DatacardBuilder` keep their input, process lists, luminosity scale,
  card header and shapes state in fields.

Every loop of the source is a method proved against a specification function. The
laws of the source are lemmas about those functions:
- the flatten/unflatten round trip;
- the filter and merge laws;
- the resolver's refusals and substitutions;
- the process partition and numbering;
- what the table lines read back as;
- the reduction and override rules of the systematics.

The file system is an `Env`:
- a map from (configuration type, path) to the mapping its loader returns;
- the functions `os.path.dirname(os.path.abspath(...))` and `os.path.join` as
  parameters.

`INSERT` opens a new parser for each referenced file. The source has no guard against
a file that references itself, so every nested read spends one unit of `fuel`. Running
out stands for Python's recursion limit.

## Model

| member | source | states |
|---|---|---|
| Text.SortStrings | LegoCards/build_datacard.py:513-516 | `sorted` returns a sorted permutation of its argument |
| Text.SortDistinct | LegoCards/build_datacard.py:513-516 | `sorted` of a list without repetitions is the increasing listing of its set |
| Text.SortedOf | LegoCards/build_datacard.py:534 | the keys of a dict in increasing order: strictly sorted, same elements, same count |
| Text.Split | LegoCards/lib/util/UniversalConfigParser.py:85 | `split(',')` gives at least one piece, none holding the separator; the first piece is the text before the first separator, or the whole text when there is none |
| Text.JoinSplit | LegoCards/lib/util/UniversalConfigParser.py:85 | splitting and joining back with the same separator gives the text back |
| Text.SplitJoin | LegoCards/lib/util/UniversalConfigParser.py:85 | joining pieces free of the separator and splitting again gives the pieces back |
| Text.RemoveWhitespace | LegoCards/lib/util/UniversalConfigParser.py:85 | `re.sub(r'\s', '', s)` keeps exactly the non-space characters, in order |
| Text.Words | LegoCards/build_datacard.py:668-669 | `str.split()` yields the maximal runs of non-space characters, each non-empty and free of spaces |
| Text.LStrip | LegoCards/lib/util/UniversalConfigParser.py:214 | `lstrip(chars)` drops a leading run of characters of the set, so the result is a suffix not starting with one of them |
| Text.RStrip | LegoCards/lib/util/UniversalConfigParser.py:214 | `rstrip(chars)` drops a trailing run of characters of the set |
| Text.Lower | LegoCards/lib/util/UniversalConfigParser.py:62 | `str.lower()` keeps the length and lower-cases each capital letter in place |
| Text.ReplaceAll | LegoCards/build_datacard.py:410-412 | `str.replace` on a text without the pattern leaves it unchanged |
| Text.IntToStringRoundTrip | LegoCards/build_datacard.py:544 | `str(p_number)` reads back as the number |
| Text.IntToString | LegoCards/build_datacard.py:544 | `str(i)` of an integer is non-empty and made of digits after an optional leading minus |
| Values.Show | LegoCards/build_datacard.py:593 | `str(v)` prints a string bare, an integer in decimal without the `L` of a long, and anything else as its `repr` |
| Values.Repr | LegoCards/build_datacard.py:593 | `repr` of a string reads back as that string; `repr` of an integer is its decimal text, followed by `L` exactly when it is a long |
| Values.ReprString | LegoCards/build_datacard.py:593 | Python 2 `repr` of a string reads back as the string; the closing quote is `"` exactly when the text has a `'` and no `"`; a `u` comes first exactly when the text is not ASCII; plain printable text comes back between single quotes |
| Values.EscapedRoundTrip | LegoCards/build_datacard.py:593 | the escapes `repr` writes (`\\`, the quote, `\t`, `\n`, `\r`, `\xhh`, `\uhhhh`, `\Uhhhhhhhh`) decode back to the text |
| Values.HexRoundTrip | LegoCards/build_datacard.py:593 | the hexadecimal digits of an escape read back as the character's code |
| Glob.FnMatch | LegoCards/lib/util/nested_dict.py:106 | `fnmatch.fnmatch(name, pat)`, matching the whole name; a pattern the compiler rejects is an error |
| Glob.LiteralPatternMatchesItself | LegoCards/lib/util/nested_dict.py:106 | a pattern without `*`, `?` or `[` matches exactly itself |
| Glob.PrefixPatternMatchesPrefix | LegoCards/lib/util/nested_dict.py:106 | `prefix*` matches exactly the names that start with `prefix` |
| Glob.StarMatchesEverything | LegoCards/lib/util/nested_dict.py:106 | `*` matches every name |
| Glob.DescendingRangeRejected | LegoCards/lib/util/nested_dict.py:106 | a set with a descending range is an error, not a failed match |
| Glob.NegatedSetExample | LegoCards/lib/util/nested_dict.py:106 | `[!...]` matches one character outside the set and nothing longer |
| NestedDict.LeafPathsAreLeaves | LegoCards/lib/util/nested_dict.py:39-56 | the key tuples `flatten_nested_items` yields are exactly the paths to values that are not mappings; lists are leaves and empty mappings yield nothing |
| NestedDict.FlatOf | LegoCards/lib/util/nested_dict.py:39-56 | one entry per non-empty leaf path, holding the value found along that path |
| NestedDict.Flatten | LegoCards/lib/util/nested_dict.py:59-70 | the loop of `flatten` collects exactly the leaf entries |
| NestedDict.FlatOfPlain | LegoCards/lib/util/nested_dict.py:59-70 | flattening ignores whether the mappings are `nested_dict`s or plain dicts |
| NestedDict.FlatIgnoresNesting | LegoCards/lib/util/nested_dict.py:59-70 | the `nested_dict(...)` conversion inside `flatten` does not change its outcome |
| NestedDict.NestedFromDict | LegoCards/lib/util/nested_dict.py:217-223 | a mapping becomes a `nested_dict` with the same keys; other values, lists included, are unchanged |
| NestedDict.NestedFromDictAllNested | LegoCards/lib/util/nested_dict.py:217-223 | every mapping reachable through mappings becomes a `nested_dict` |
| NestedDict.NestedFromDictOfPlain | LegoCards/lib/util/nested_dict.py:217-223 | the conversion looks only at the shape of the tree |
| NestedDict.ToDict | LegoCards/lib/util/nested_dict.py:161-179 | `to_dict` gives a plain dict with the same keys |
| NestedDict.ToDictPlain | LegoCards/lib/util/nested_dict.py:161-179 | `to_dict` keeps the shape, and on a tree of `nested_dict`s yields plain dicts throughout |
| NestedDict.ToDictOfShallow | LegoCards/lib/util/nested_dict.py:171-178 | children that are not `nested_dict`s are kept as they are |
| NestedDict.ToDictOfNestedFromDict | LegoCards/lib/util/nested_dict.py:161-223 | converting a tree to `nested_dict`s and back gives the plain tree |
| NestedDict.NestedFromDictOfToDict | LegoCards/lib/util/nested_dict.py:161-223 | converting to plain dicts and back is the same as converting directly |
| NestedDict.FilterFlat | LegoCards/lib/util/nested_dict.py:91-117 | `filter_flatten_dict` fails exactly when some tag is rejected and some non-empty key tuple is examined |
| NestedDict.FilterOutcome | LegoCards/lib/util/nested_dict.py:91-117 | with valid tags, it keeps exactly the entries each of whose tags matches some item of the key tuple, with their values |
| NestedDict.FilterErrorIsFirst | LegoCards/lib/util/nested_dict.py:103-106 | with an invalid tag, the error names the first rejected tag |
| NestedDict.FilterFlattenDict | LegoCards/lib/util/nested_dict.py:98-117 | the loop of `filter_flatten_dict` computes the filter |
| NestedDict.FoundTags | LegoCards/lib/util/nested_dict.py:102-112 | the `found_tags` flag is the conjunction over the tags of "some item matches" |
| NestedDict.Write | LegoCards/lib/util/nested_dict.py:83-88 | a successful step of `unflatten` leaves a mapping of the same kind at the root |
| NestedDict.UnflattenItems | LegoCards/lib/util/nested_dict.py:73-89 | the loop of `unflatten` is one write per item, in order |
| NestedDict.UpdateChild | LegoCards/lib/util/nested_dict.py:226-249 | a value of `other` that is not a mapping overwrites, and so does a mapping over a child that is not one; a mapping over a missing key gives a `nested_dict` with its keys; over a mapping child, the keys are the union, the child's other keys keep their values, and a plain `dict` child takes `other`'s values as they are (a shallow `dict.update`) |
| NestedDict.RecursiveUpdate | LegoCards/lib/util/nested_dict.py:226-249 | `_recursive_update` keeps a `nested_dict`, has the keys of both sides, and keeps the keys only in `nd` unchanged |
| NestedDict.DeepMerge | LegoCards/lib/util/nested_dict.py:226-249 | the reference deep merge: a plain dict on the union of the keys |
| NestedDict.RecursiveUpdateIsDeepMerge | LegoCards/lib/util/nested_dict.py:226-249 | on a tree of `nested_dict`s, `_recursive_update` is the deep merge |
| NestedDict.NestedDictionary.FromDict | LegoCards/lib/util/nested_dict.py:280-284 | `nested_dict(d)` holds the converted tree of `d` |
| NestedDict.NestedDictionary.Update | LegoCards/lib/util/nested_dict.py:257-261 | `update(other)` leaves the object holding `_recursive_update(old, other)` |
| NestedDict.NestedDictionary.ToPlainDict | LegoCards/lib/util/nested_dict.py:161-179 | `to_dict()` on the object is a plain dict with the same keys |
| FlattenLaws.WriteOutcome | LegoCards/lib/util/nested_dict.py:84-88 | a write fails exactly for an empty key tuple, a root that is not a mapping, or a proper prefix leading to a non-mapping |
| FlattenLaws.WriteEffect | LegoCards/lib/util/nested_dict.py:84-88 | a write binds the value at the key and leaves every unrelated path unchanged |
| FlattenLaws.WritePrefixes | LegoCards/lib/util/nested_dict.py:84-88 | a missing prefix step gets a new plain `dict()`, and an existing mapping keeps its kind |
| FlattenLaws.ShorterKeyFirstFails | LegoCards/lib/util/nested_dict.py:84-88 | a longer key after a shorter one bound to a leaf fails |
| FlattenLaws.ShorterKeyLaterOverwrites | LegoCards/lib/util/nested_dict.py:88 | a shorter key after a longer one silently replaces the subtree |
| FlattenLaws.UnflattenOrderMatters | LegoCards/lib/util/nested_dict.py:80-88 | the two orders of a conflicting pair give different outcomes |
| FlattenLaws.UnflattenOfFlatSubset | LegoCards/lib/util/nested_dict.py:73-89 | `unflatten` of any listing of some flattened items succeeds in every order and rebuilds exactly those leaves |
| FlattenLaws.UnflattenFlattenRoundTrip | LegoCards/lib/util/nested_dict.py:59-89 | for a tree without empty sub-mappings, `unflatten(flatten(d)).to_dict()` is `d` as plain dicts, in any item order |
| FlattenLaws.PruneFlat | LegoCards/lib/util/nested_dict.py:59-70 | the rebuilt tree flattens to exactly the chosen items |
| FlattenLaws.FilterNoTags | LegoCards/lib/util/nested_dict.py:98-117 | without tags every entry is kept |
| FlattenLaws.FilterIsSubset | LegoCards/lib/util/nested_dict.py:98-117 | the result is a subset of the input, with the values unchanged |
| FlattenLaws.FilterComposes | LegoCards/lib/util/nested_dict.py:102-112 | filtering by two tag lists in turn is filtering by both, so tags are and-ed |
| FlattenLaws.FilterNotPositional | LegoCards/lib/util/nested_dict.py:103-110 | each tag may match at any position of the key tuple |
| FlattenLaws.RecursiveUpdateAllNested | LegoCards/lib/util/nested_dict.py:226-249 | updating a tree of `nested_dict`s yields a tree of `nested_dict`s |
| FlattenLaws.DeepMergeOfNestedFromDict | LegoCards/lib/util/nested_dict.py:226-249 | the deep merge looks only at the shape of its inputs |
| FlattenLaws.PlainChildUpdatedShallowly | LegoCards/lib/util/nested_dict.py:236-239 | under a plain `dict` child the update is `dict.update`: incoming keys replace whole values and other keys stay |
| FlattenLaws.ShallowVersusDeepExample | LegoCards/lib/util/nested_dict.py:231-239 | below a `nested_dict` child both inner keys survive; below a plain child the incoming mapping replaces the old one |
| ConfigTypes.SetCfgType | LegoCards/lib/util/UniversalConfigParser.py:58-67 | `None` stays `None`; a string is accepted exactly when its lower-cased form is supported, and is returned lower-cased; a non-string raises `AttributeError` |
| ConfigTypes.SetCfgTypeIgnoresCase | LegoCards/lib/util/UniversalConfigParser.py:62-65 | a type and its lower-cased form get the same answer |
| ConfigTypes.SetCfgTypeExamples | LegoCards/lib/util/UniversalConfigParser.py:58-67 | `"YAML"` gives `"yaml"`; `"yml"` is refused |
| ConfigTypes.SetFiles | LegoCards/lib/util/UniversalConfigParser.py:71-86 | only a value that is neither `None`, a list nor a string fails; a string gives comma-free pieces that join back to the whitespace-free text |
| ConfigTypes.SetFilesTextHasNoSpaces | LegoCards/lib/util/UniversalConfigParser.py:82-86 | no file name taken from a string holds whitespace |
| ConfigTypes.SetFilesReadsCsv | LegoCards/lib/util/UniversalConfigParser.py:82-86 | `"a.yaml, b.yaml"` reads back as the list of names |
| ConfigTypes.Extension | LegoCards/lib/util/UniversalConfigParser.py:52 | `splitext` yields nothing or a dot followed by text without dots or slashes |
| ConfigTypes.ExtensionOf | LegoCards/lib/util/UniversalConfigParser.py:52 | `splitext` of `stem.ext` is `.ext` when `ext` holds no dot or slash |
| ConfigTypes.GetCfgType | LegoCards/lib/util/UniversalConfigParser.py:45-56 | only succeeds while no type is set, and then yields a supported type; with a type set the local is unbound |
| ConfigTypes.GetCfgTypeFromExtension | LegoCards/lib/util/UniversalConfigParser.py:45-56 | `stem.ext` with a supported `ext` gets type `ext` |
| ConfigTypes.GetCfgTypeRejectsHidden | LegoCards/lib/util/UniversalConfigParser.py:52-55 | a hidden file such as `.yaml` has no extension and is refused |
| ConfigTypes.GetCfgTypeRejectsUpperCase | LegoCards/lib/util/UniversalConfigParser.py:52-55 | extensions are not lower-cased, so `card.YAML` is refused |
| ConfigTypes.UpdateLeaf | LegoCards/lib/util/UniversalConfigParser.py:7-25 | `update_leaf` returns the leaf-wise deep merge |
| ConfigTypes.LeafUpdateIsDeepMerge | LegoCards/lib/util/UniversalConfigParser.py:21-25 | converting both sides, updating and converting back is the deep merge |
| ConfigTypes.UpdateLeafDocExample | LegoCards/lib/util/UniversalConfigParser.py:14-20 | the documented example merges to `{'a':2,'b':{'c':3,'e':'3','d':'3'}}` |
| InsertSyntax.MatchAt | LegoCards/lib/util/UniversalConfigParser.py:189 | a match of `INSERT\((.+?)\)` closes at the first `)` after at least one character, with no newline before it |
| InsertSyntax.Scan | LegoCards/lib/util/UniversalConfigParser.py:198-199 | `re.split` and `re.findall` give text and group tokens alternately, and the groups alone |
| InsertSyntax.TokensReassemble | LegoCards/lib/util/UniversalConfigParser.py:198-199 | the text tokens and the wrapped groups give the line back |
| InsertSyntax.NoInsertNoGroups | LegoCards/lib/util/UniversalConfigParser.py:198-199 | a line without `INSERT(` has no group and is one text token |
| InsertSyntax.GuardAt | LegoCards/lib/util/UniversalConfigParser.py:190-195 | a match of the guard pattern is an `INSERT(` whose next parenthesis closes it |
| InsertSyntax.NestedReferenceDetected | LegoCards/lib/util/UniversalConfigParser.py:202-205 | `INSERT(INSERT(a)b)` is caught by the guard |
| InsertSyntax.NestedReferenceExample | LegoCards/lib/util/UniversalConfigParser.py:202-205 | `INSERT(INSERT(b.yaml:section):key)` is caught by the guard |
| InsertSyntax.RemainingReference | LegoCards/lib/util/UniversalConfigParser.py:203 | the outer reference left after the substitution still matches |
| InsertSyntax.SingleReference | LegoCards/lib/util/UniversalConfigParser.py:198-217 | a line that is one reference has that group alone, empty text around it, and is not nested |
| InsertSyntax.SingleReferenceTyped | LegoCards/lib/util/UniversalConfigParser.py:213-217 | such a line is substituted as a typed value exactly when its group does not start with a letter of `INSERT(` |
| InsertSyntax.TypedSubstitutionExample | LegoCards/lib/util/UniversalConfigParser.py:213-217 | `INSERT(yields.yaml:ggH)` is substituted typed |
| InsertSyntax.TextSubstitutionExample | LegoCards/lib/util/UniversalConfigParser.py:213-217 | `INSERT(TREE.yaml:key)` is substituted as text |
| InsertSyntax.FillWrapped | LegoCards/lib/util/UniversalConfigParser.py:198-199 | putting each reference back in place of its group gives the line back, so filling the places with values replaces exactly the references |
| InsertSyntax.EmbeddedReference | LegoCards/lib/util/UniversalConfigParser.py:198-205 | a line `t0 INSERT(g) t1` with no parenthesis in the text splits into the tokens `t0`, `g`, `t1` with the one group `g`, and is not nested |
| InsertSyntax.EmbeddedReferenceTyped | LegoCards/lib/util/UniversalConfigParser.py:213-217 | such a line is substituted typed exactly when `lstrip('INSERT(')` and `rstrip(')')` eat all the text around the reference |
| Resolver.NewParser | LegoCards/lib/util/UniversalConfigParser.py:34-41 | the constructor checks the type, then the files, and starts with an empty mapping |
| Resolver.Load | LegoCards/lib/util/UniversalConfigParser.py:117-120 | one loader call succeeds exactly when the file is readable as that type |
| Resolver.LoadFiles | LegoCards/lib/util/UniversalConfigParser.py:108-120 | the load loop keeps the file list, ends in the last file's directory, and never changes a type already set |
| Resolver.LoadOne | LegoCards/lib/util/UniversalConfigParser.py:112-120 | one pass sets the directory of the file and fixes a type |
| Resolver.ExactLookup | LegoCards/lib/util/UniversalConfigParser.py:252-255 | successive `[item]` lookups succeed exactly when the path exists, and give its value |
| Resolver.SoleValue | LegoCards/lib/util/UniversalConfigParser.py:248-249 | the one value of a single-entry mapping |
| Resolver.Select | LegoCards/lib/util/UniversalConfigParser.py:237-255 | without wildcards, the selection is the exact lookup of the keys |
| Resolver.Fetch | LegoCards/lib/util/UniversalConfigParser.py:226-234 | reading a referenced file yields a plain dict; without a directory it raises `AttributeError` |
| Resolver.ReadConfig | LegoCards/lib/util/UniversalConfigParser.py:232-234 | a fresh YAML parser's `get_dict` yields a plain dict |
| Resolver.InsertTokens | LegoCards/lib/util/UniversalConfigParser.py:219-274 | with `enforce_string`, the token loop yields text or a whole configuration |
| Resolver.Insert | LegoCards/lib/util/UniversalConfigParser.py:182-274 | a nested reference is refused; a line without groups is returned unchanged |
| Resolver.Resolved | LegoCards/lib/util/UniversalConfigParser.py:146-179 | `recursive_parse` keeps the keys and kinds of containers and the length of lists; values without references are untouched; a failing string keeps its text |
| Resolver.ResolveEntries | LegoCards/lib/util/UniversalConfigParser.py:151-163 | the dict loop rewrites each visited slot to its resolved value, or stops with the error of one slot |
| Resolver.ResolveItems | LegoCards/lib/util/UniversalConfigParser.py:166-179 | the list loop rewrites each item to its resolved value, or stops with the error of one item |
| Resolver.Prepare | LegoCards/lib/util/UniversalConfigParser.py:101-105 | the opening of `get_dict` empties the mapping and replaces the files and the type only when given |
| Resolver.PrepareFiles | LegoCards/lib/util/UniversalConfigParser.py:101-103 | a truthy file argument replaces the file list, and the mapping is emptied |
| Resolver.PrepareType | LegoCards/lib/util/UniversalConfigParser.py:104-105 | a truthy type argument replaces the type |
| Resolver.GetDictSpec | LegoCards/lib/util/UniversalConfigParser.py:97-128 | `get_dict` returns the mapping the parser holds afterwards, as a plain dict |
| ResolverLaws.InsertFreeUnchanged | LegoCards/lib/util/UniversalConfigParser.py:146-179 | a value without references is unchanged, reads nothing and raises nothing |
| ResolverLaws.GetDictWithoutReferences | LegoCards/lib/util/UniversalConfigParser.py:97-128 | `get_dict` on files without references returns the merged mapping |
| ResolverLaws.NestedReferenceRefused | LegoCards/lib/util/UniversalConfigParser.py:202-205 | a nested reference raises `RuntimeError` before any file is read, whatever the file system, and keeps its text |
| ResolverLaws.ReferenceTokens | LegoCards/lib/util/UniversalConfigParser.py:219-260 | the token loop of a one-reference line is the outcome of that reference |
| ResolverLaws.SingleReferenceInsert | LegoCards/lib/util/UniversalConfigParser.py:213-258 | `INSERT(g)` alone yields the value as it is exactly when `g` does not start with a letter of `INSERT(` |
| ResolverLaws.ThisConfigRefused | LegoCards/lib/util/UniversalConfigParser.py:226-267 | `THIS_CONFIG` raises `RuntimeError` |
| ResolverLaws.ReferenceWithoutKeys | LegoCards/lib/util/UniversalConfigParser.py:237-262 | a reference without keys returns the whole configuration and drops the text around it |
| ResolverLaws.LoadedOverlay | LegoCards/lib/util/UniversalConfigParser.py:108-120 | every file is read with the type the first fixed, and the mapping is the overlay of the files in list order |
| ResolverLaws.LoadStep | LegoCards/lib/util/UniversalConfigParser.py:112-120 | the first file's mapping is laid over the old one before the rest are read |
| ResolverLaws.OverlayKeys | LegoCards/lib/util/UniversalConfigParser.py:285-289 | a key is in the overlay exactly when it is in the base or in some file |
| ResolverLaws.OverlayKept | LegoCards/lib/util/UniversalConfigParser.py:285-289 | a key no file has keeps its base value |
| ResolverLaws.OverlayLastWins | LegoCards/lib/util/UniversalConfigParser.py:285-289 | a key holds the value of the last file that has it |
| ResolverLaws.LoadedKeys | LegoCards/lib/util/UniversalConfigParser.py:108-120 | after loading, a key is present exactly when it was before or some file has it |
| ResolverLaws.LoadedLastWins | LegoCards/lib/util/UniversalConfigParser.py:108-120 | after loading, a top-level key holds the last file's value (a shallow merge) |
| ResolverLaws.LoadedKept | LegoCards/lib/util/UniversalConfigParser.py:108-120 | after loading, a key no file has keeps its value |
| ResolverLaws.WildcardSelection | LegoCards/lib/util/UniversalConfigParser.py:241-249 | with a wildcard, the selection is exactly the leaves each of whose keys matches some level; a lone leaf comes bare, otherwise as a dict |
| ResolverLaws.TextAroundTokens | LegoCards/lib/util/UniversalConfigParser.py:219-271 | the token loop over `t0`, `g`, `t1` gives `t0 + str(value) + t1` when the reference resolves, and the reference's error otherwise |
| ResolverLaws.EmbeddedReferenceInsert | LegoCards/lib/util/UniversalConfigParser.py:182-274 | on `t0 INSERT(g) t1`, unless the strips eat all the text, the printed value replaces the reference and the text around it stays (`rate=INSERT(b.yaml:s:k) units` becomes `rate=42 units`); a failing reference gives its error; when the strips eat the text, the value comes back as it is |
| ResolverLaws.FillTokens | LegoCards/lib/util/UniversalConfigParser.py:219-271 | from any point on, a token loop whose references all resolve to text appends the text tokens with the values in between |
| ResolverLaws.FailingTokens | LegoCards/lib/util/UniversalConfigParser.py:219-267 | the token loop returns the error of the first reference that fails, whatever follows it |
| ResolverLaws.TokensAlternate | LegoCards/lib/util/UniversalConfigParser.py:198-199 | the tokens are text and group alternately, with one more text token than groups |
| ResolverLaws.TextSubstitution | LegoCards/lib/util/UniversalConfigParser.py:198-274 | on a line that is not nested and not substituted typed, when every reference resolves, `INSERT` returns the line with each reference replaced by `str()` of its value (the places filled as `InsertSyntax.FillWrapped` describes) |
| ResolverLaws.FirstFailingReference | LegoCards/lib/util/UniversalConfigParser.py:198-274 | when a reference fails and all before it resolve, `INSERT` on the line returns that reference's error |
| ResolverLaws.WildcardSelectionUnflattened | LegoCards/lib/util/UniversalConfigParser.py:243-245 | `unflatten(...).to_dict()` of the filtered leaves, in any order, is the selection |
| ConfigParser.SelectKeys | LegoCards/lib/util/UniversalConfigParser.py:237-255 | the key-selection code computes the selection |
| ConfigParser.UniversalConfigParser.Create | LegoCards/lib/util/UniversalConfigParser.py:34-41 | the constructor fails as the type and file checks do, otherwise yields the checked state |
| ConfigParser.UniversalConfigParser.GetDict | LegoCards/lib/util/UniversalConfigParser.py:97-128 | `get_dict` leaves the parser in the specified state and returns the specified dict |
| ConfigParser.UniversalConfigParser.ApplyArguments | LegoCards/lib/util/UniversalConfigParser.py:101-105 | the argument handling updates the fields as specified |
| ConfigParser.UniversalConfigParser.ApplyFiles | LegoCards/lib/util/UniversalConfigParser.py:101-103 | a failing file argument leaves the fields unchanged |
| ConfigParser.UniversalConfigParser.ApplyType | LegoCards/lib/util/UniversalConfigParser.py:104-105 | the type argument updates the fields as specified |
| ConfigParser.UniversalConfigParser.LoadAll | LegoCards/lib/util/UniversalConfigParser.py:108-120 | the load loop updates the fields as specified |
| ConfigParser.UniversalConfigParser.LoadFile | LegoCards/lib/util/UniversalConfigParser.py:112-120 | one pass updates directory, type and mapping as specified |
| ConfigParser.UniversalConfigParser.InterpretKeywords | LegoCards/lib/util/UniversalConfigParser.py:137-282 | the top-level mapping is rewritten slot by slot and keeps what was rewritten before an error |
| ConfigParser.UniversalConfigParser.RecursiveParse | LegoCards/lib/util/UniversalConfigParser.py:146-179 | `recursive_parse` computes the resolved value and error of a slot |
| ConfigParser.UniversalConfigParser.ParseEntries | LegoCards/lib/util/UniversalConfigParser.py:151-163 | the dict loop of `recursive_parse` |
| ConfigParser.UniversalConfigParser.ParseItems | LegoCards/lib/util/UniversalConfigParser.py:166-179 | the list loop of `recursive_parse` |
| ConfigParser.UniversalConfigParser.InsertLine | LegoCards/lib/util/UniversalConfigParser.py:182-274 | `INSERT` computes the specified substitution |
| ConfigParser.UniversalConfigParser.InsertToken | LegoCards/lib/util/UniversalConfigParser.py:219-271 | one token either ends the call with its outcome or leaves the rest of the loop equivalent |
| ConfigParser.UniversalConfigParser.ReadReference | LegoCards/lib/util/UniversalConfigParser.py:226-234 | the nested parser reads the referenced file |
| ConfigParser.UniversalConfigParser.ReadConfigFile | LegoCards/lib/util/UniversalConfigParser.py:232-234 | a fresh YAML parser's `get_dict` |
| Datacard.Index | LegoCards/build_datacard.py:541 | `d[k]`: the stored value; a missing key raises `KeyError` in a plain dict and yields an empty child in a `nested_dict`; a non-mapping raises `TypeError` |
| Datacard.CatchKeyError | LegoCards/build_datacard.py:655-658 | `except KeyError` turns exactly a `KeyError` into "nothing" and passes other errors on |
| Datacard.SignalFlag | LegoCards/build_datacard.py:508 | `p_setup['is_signal']` taken as a condition is its truthiness |
| Datacard.Processes | LegoCards/build_datacard.py:498-518 | `_get_processes` succeeds only when `processes` is a dict whose every setup can tell whether it is a signal |
| Datacard.ProcessesOf | LegoCards/build_datacard.py:507-518 | once the process dict is found, success means no bad setup |
| Datacard.CollectProcesses | LegoCards/build_datacard.py:498-518 | the method computes `_get_processes` |
| Datacard.SplitProcesses | LegoCards/build_datacard.py:507-511 | the loop fails exactly on a bad setup (the first one it meets); otherwise it lists each signal and each background once, and their `sorted` forms are the sorted id sets |
| Datacard.ProcessPartition | LegoCards/build_datacard.py:498-518 | signals and backgrounds partition the processes by `is_signal`, and the list holds the sorted signals, then the sorted backgrounds, as the type asks |
| Datacard.OneKindOfProcess | LegoCards/build_datacard.py:513-516 | `'signal'` alone selects the sorted signals; `'background'` alone selects the sorted backgrounds |
| Datacard.ConstructorSignals | LegoCards/build_datacard.py:74 | the constructor's signal list is the sorted signal names |
| Datacard.ConstructorBackgrounds | LegoCards/build_datacard.py:75 | the constructor's background list is the sorted background names |
| Datacard.ProcessNumber | LegoCards/build_datacard.py:527-529 | signals get numbers of at most 0, backgrounds numbers of at least 1 |
| Datacard.NumbersConsecutive | LegoCards/build_datacard.py:527-559 | numbers run without gaps from `-(nsig-1)` to `0` over the signals and from `1` to `nbkg` over the backgrounds |
| Datacard.Enumerate | LegoCards/build_datacard.py:527-529 | `dict(enumerate(s, start))` has exactly the keys `start` to `start+len(s)-1`, holding the items of `s` in order |
| Datacard.EnumeratedSignals | LegoCards/build_datacard.py:527 | the signal dict numbers the signals from `-(nsig-1)` to `0`, in the process-list order |
| Datacard.EnumeratedBackgrounds | LegoCards/build_datacard.py:528 | the background dict numbers the backgrounds from `1`, after the signals in the process list |
| Datacard.ColumnOf | LegoCards/build_datacard.py:540-546 | a process's column has its name, its number and the bin `cat_<category>` |
| Datacard.ProcessLinesSpec | LegoCards/build_datacard.py:521-565 | `'sys'` keeps its empty start without processes and holds what the loops store otherwise |
| Datacard.BuildProcessLines | LegoCards/build_datacard.py:521-565 | the loops of `_get_process_lines` compute the specified lines |
| Datacard.AddProcess | LegoCards/build_datacard.py:536-546 | one iteration appends the delimiter and the process's fields to the four lines, or raises the lookup's error |
| Datacard.AppendColumns | LegoCards/build_datacard.py:534-547 | the loop over one numbered dict appends the columns of its processes in number order, or stops with the first error of the specified lines |
| Datacard.NumberLineEntries | LegoCards/build_datacard.py:544 | the number line lists each process's number |
| Datacard.NumberLineReadsBack | LegoCards/build_datacard.py:533-559 | split on spaces, the number line gives one integer per process, from `-(nsig-1)` and counting up |
| Datacard.NameLineIsJoin | LegoCards/build_datacard.py:533-558 | the name line is the process list joined by single spaces |
| Datacard.NameLineReadsBack | LegoCards/build_datacard.py:533-558 | with names free of spaces, the name line splits back into the process list |
| Datacard.BinLineEntries | LegoCards/build_datacard.py:542-557 | the bin line is `cat_<category>` once per process, joined by spaces |
| Datacard.Cell | LegoCards/build_datacard.py:589-593 | a table entry is `str` of the value, or `-` when the process is missing |
| Datacard.SystematicsLines | LegoCards/build_datacard.py:586-616 | `n_systematics` is the number of systematics |
| Datacard.SystematicLineFor | LegoCards/build_datacard.py:587-605 | the inner loops build the specified line of one systematic |
| Datacard.BuildSystematicsLines | LegoCards/build_datacard.py:586-616 | the loops build the specified count and text |
| Datacard.TerminateLines | LegoCards/build_datacard.py:610-616 | the last loop counts the lines and ends each with a newline |
| Datacard.TerminatedIsJoin | LegoCards/build_datacard.py:610-615 | the lines ended by newlines are the lines joined by newlines plus an empty last piece |
| Datacard.SystematicsTextSplits | LegoCards/build_datacard.py:586-616 | the count is the number of lines, and the text splits back into them |
| Datacard.SystematicLineLayout | LegoCards/build_datacard.py:587-605 | a line is name, type and, unless the type starts with `param`, one entry per process in process-list order |
| Datacard.CellsFromPlain | LegoCards/build_datacard.py:588-600 | with a plain dict entry no table entry fails, and they are the expected ones |
| Datacard.ExpectedCells | LegoCards/build_datacard.py:588-600 | one table entry per process |
| Systematics.Prefixes | LegoCards/build_datacard.py:735 | `keys_set` holds `key[:-1]` of every key tuple |
| Systematics.HeadsCount | LegoCards/build_datacard.py:737 | there are no more first keys than prefixes, and as many exactly when no two prefixes share one |
| Systematics.MiddlesCount | LegoCards/build_datacard.py:742 | one category path exactly when all prefixes have the same rest |
| Systematics.ShapeChecks | LegoCards/build_datacard.py:735-745 | the two counting assertions mean "one path per systematic" and "one shared category path" |
| Systematics.PairKey | LegoCards/build_datacard.py:752 | the reduced key is the first and last key of the tuple |
| Systematics.ReKeyed | LegoCards/build_datacard.py:747-753 | the reduced flat dict has pair keys |
| Systematics.ReKeyInjective | LegoCards/build_datacard.py:735-753 | with one path per systematic, no two key tuples share a reduced key |
| Systematics.DistinctHeadsInjective | LegoCards/build_datacard.py:737-753 | the same, from the counting assertion |
| Systematics.ReKeyedHas | LegoCards/build_datacard.py:750-753 | each kept key tuple lands on its reduced key with its value |
| Systematics.ReKeyedOrigin | LegoCards/build_datacard.py:750-753 | each reduced entry comes from one kept key tuple |
| Systematics.UnflattenTwoLevel | LegoCards/build_datacard.py:755 | `unflatten` of pair-keyed items builds the two-level dictionary |
| Systematics.WriteTwoLevel | LegoCards/build_datacard.py:755 | one `unflatten` step with a pair key adds the entry to the two-level dictionary |
| Systematics.ReduceFlat | LegoCards/build_datacard.py:730-755 | the reduction yields a `nested_dict` |
| Systematics.ReduceSpec | LegoCards/build_datacard.py:708-755 | `_reduce_to_expected_systematic_dict` yields a `nested_dict` |
| Systematics.ReduceAccepts | LegoCards/build_datacard.py:730-745 | the reduction succeeds exactly when every key tuple is long enough, each systematic has one path, and all share one category path |
| Systematics.ReduceEntries | LegoCards/build_datacard.py:746-755 | the result maps each systematic to a non-empty plain dict holding exactly the leaves whose last key is a process or `type` |
| Systematics.TwoLevelAt | LegoCards/build_datacard.py:755 | a two-key path reaches a value exactly when it is a reduced key |
| Systematics.ReduceToExpected | LegoCards/build_datacard.py:708-755 | the method computes the reduction |
| Systematics.ReduceFlatLoops | LegoCards/build_datacard.py:730-755 | the loops compute the reduction of the flat dict |
| Systematics.CheckKeyLengths | LegoCards/build_datacard.py:732-734 | the first loop checks that every key tuple has two keys or more |
| Systematics.ReKeyLoop | LegoCards/build_datacard.py:747-753 | the re-keying loop computes the reduced flat dict |
| Systematics.ReduceItem | LegoCards/build_datacard.py:750-753 | one turn keeps and re-keys a kept tuple and skips the others |
| Systematics.UnflattenPairs | LegoCards/build_datacard.py:755 | `unflatten` of the reduced dict is the two-level dictionary |
| Systematics.NestedDictOf | LegoCards/lib/util/nested_dict.py:262-295 | `nested_dict(x)` converts a dict; other arguments do not give a usable dict |
| Systematics.MergeReduced | LegoCards/build_datacard.py:642-647 | merging the reduced sections of a list yields a `nested_dict` |
| Systematics.StartSpec | LegoCards/build_datacard.py:635-649 | `sys_dict` before the overrides is a `nested_dict` |
| Systematics.OverrideWords | LegoCards/build_datacard.py:668-669 | the type word and the sizes are the words of `str(sys_value)`, and an empty value raises `IndexError` |
| Systematics.Override | LegoCards/build_datacard.py:660-702 | one override adds its systematic and leaves every other systematic unchanged |
| Systematics.KnownOverride | LegoCards/build_datacard.py:667-691 | an override of a known systematic keeps a mapping of the same kind |
| Systematics.KnownType | LegoCards/build_datacard.py:671-679 | the type check passes only for the override's type word |
| Systematics.SetOverride | LegoCards/build_datacard.py:681-691 | a checked override keeps a mapping of the same kind |
| Systematics.NewOverride | LegoCards/build_datacard.py:693-702 | a new systematic is a plain dict |
| Systematics.OverrideTypeWord | LegoCards/build_datacard.py:660-702 | after an override the type starts with the override's first word |
| Systematics.OverrideRefusesMismatch | LegoCards/build_datacard.py:671-679 | a type mismatch with a known systematic raises the assertion with the source's message |
| Systematics.OverrideSetsSize | LegoCards/build_datacard.py:667-702 | a non-`param` override sets the process's size to the second word read as a float and keeps the other fields; a new systematic gets the first word as type |
| Systematics.OverrideReplacesParam | LegoCards/build_datacard.py:681-699 | a `param` override replaces the type by `sys_value` and keeps the other fields; a new systematic holds the type alone |
| Systematics.OverridesFrom | LegoCards/build_datacard.py:660-702 | a process's overrides keep a mapping of the same kind |
| Systematics.OverridesFromFrame | LegoCards/build_datacard.py:660-702 | a process's overrides add exactly the systematics it names and leave the others unchanged |
| Systematics.ProcessOverrides | LegoCards/build_datacard.py:655-702 | a process without a `systematics` entry changes nothing |
| Systematics.AllOverrides | LegoCards/build_datacard.py:653-702 | the overrides of all processes keep a mapping of the same kind |
| Systematics.SystematicsDict | LegoCards/build_datacard.py:620-704 | `_get_systematics_dict` returns a plain dict |
| Systematics.BuildStart | LegoCards/build_datacard.py:635-649 | the method computes `sys_dict` before the overrides |
| Systematics.ApplyOverride | LegoCards/build_datacard.py:660-702 | the method computes one override |
| Systematics.UpdateKnown | LegoCards/build_datacard.py:667-691 | the method computes the override of a known systematic |
| Systematics.CheckType | LegoCards/build_datacard.py:671-679 | the method computes the type check |
| Systematics.CreateNew | LegoCards/build_datacard.py:693-702 | the method computes the entry of a new systematic |
| Systematics.ApplyProcessOverrides | LegoCards/build_datacard.py:660-702 | the loop applies a process's overrides in increasing name order |
| Systematics.ApplyOverrides | LegoCards/build_datacard.py:653-702 | the loop over the process list computes all the overrides |
| Systematics.ApplyProcess | LegoCards/build_datacard.py:655-702 | one pass of that loop |
| Systematics.BuildSystematicsDict | LegoCards/build_datacard.py:633-703 | the method computes `_get_systematics_dict` |
| FactoryStatement.FactoryMatch | LegoCards/build_datacard.py:338-345 | a match reports a word name and a value text that the counted group matches, at the start of the statement |
| FactoryStatement.FactoryMatchOf | LegoCards/build_datacard.py:338-350 | on `name[vals]...` the pattern matches exactly when the counted group matches `vals`, and reports that name and those values |
| FactoryStatement.CheckFactoryStatement | LegoCards/build_datacard.py:333-362 | a non-observable statement comes back untouched; a set flag means an observable with a word name; an unmatched statement comes back stripped with `False` |
| FactoryStatement.SplitLength | LegoCards/build_datacard.py:351 | `len(vals.split(','))` is one more than the number of commas |
| FactoryStatement.RepsNotThree | LegoCards/build_datacard.py:338-339 | three numbers never fit in the `{0,2}` repetitions |
| FactoryStatement.CheckOf | LegoCards/build_datacard.py:345-355 | on a matching statement the name comes back, flagged exactly when `vals` splits into two pieces |
| FactoryStatement.ObservableRange | LegoCards/build_datacard.py:351-353 | `name[lo,hi]` gives `(name, True)` |
| FactoryStatement.ObservableSingleValue | LegoCards/build_datacard.py:354-355 | `name[value]` gives `(name, False)` |
| FactoryStatement.ObservableNoValue | LegoCards/build_datacard.py:354-355 | `name[]` gives `(name, False)` |
| FactoryStatement.ObservableThreeValues | LegoCards/build_datacard.py:356-359 | three values do not match, and the stripped statement comes back with `False` |
| FactoryStatement.ObservableBranchName | LegoCards/build_datacard.py:356-359 | a statement without `[` is taken for a branch name, stripped |
| FactoryStatement.TwoPieces | LegoCards/build_datacard.py:351 | matched values with one comma are a number, the comma, and a number or nothing |
| FactoryStatement.RangeFlagShape | LegoCards/build_datacard.py:351-353 | as written, a set flag means `name[lo,hi]` with `hi` a number or empty |
| FactoryStatement.TrailingCommaIsRange | LegoCards/build_datacard.py:351-353 | as written, `name[lo,]` is flagged as a range |
| FactoryStatement.CheckFactoryStatementIntended | LegoCards/build_datacard.py:333-362 | the corrected check keeps every outcome but the flag |
| FactoryStatement.IntendedRange | LegoCards/build_datacard.py:351-353 | the corrected check still flags `name[lo,hi]` |
| FactoryStatement.IntendedTrailingComma | LegoCards/build_datacard.py:351-355 | the corrected check does not flag `name[lo,]` |
| FactoryStatement.IntendedFlagShape | LegoCards/build_datacard.py:351-353 | the corrected flag is set exactly for two numbers |
| Shapes.ShapeLookup | LegoCards/build_datacard.py:402 | `d_input['processes'][p]['shape']` needs a mapping input |
| Shapes.ShapeOf | LegoCards/build_datacard.py:401-405 | a `KeyError` anywhere in the lookup means "no shape"; only other errors pass |
| Shapes.ShapesScan | LegoCards/build_datacard.py:398-413 | the scan finds a shape only if some process has one, reports none only if no process has one, raises only a lookup's error, and cannot fail when no lookup does |
| Shapes.ScanFindsShape | LegoCards/build_datacard.py:399-413 | with no lookup raising, a shape is found exactly when some process has one |
| Shapes.ScanWithoutShapes | LegoCards/build_datacard.py:399-413 | no process with a shape gives a counting card |
| Shapes.ScanShapes | LegoCards/build_datacard.py:398-413 | the loop computes the scan |
| Shapes.WorkspaceFile | LegoCards/build_datacard.py:408-412 | at scale 1 the workspace file is `<name>.input.root` |
| Shapes.WorkspaceFileScaled | LegoCards/build_datacard.py:408-412 | at another scale, for a name without `input`, it is `<name>.lumi_scale_<scale>.input.root` |
| Shapes.ReplaceSkipsName | LegoCards/build_datacard.py:410-412 | `replace` on `<name>.input.root` touches only the suffix when the name holds no `input` |
| Shapes.SuffixReplaced | LegoCards/build_datacard.py:410-412 | `.input.root` with `input` replaced is `.<rep>.root` |
| Shapes.ShapesLineStarts | LegoCards/build_datacard.py:415-419 | the shapes line starts with `shapes` and the counting comment does not |
| Shapes.ShapesLine | LegoCards/build_datacard.py:415-419 | the line is the counting comment exactly when no shape is found and a `shapes` line exactly when one is; it fails only on a lookup error or a missing category |
| Shapes.ShapesLineFields | LegoCards/build_datacard.py:416-417 | the shapes line splits into `shapes`, `*`, the bin, the file and `w:$PROCESS` |
| Shapes.ShapesLineReadsBack | LegoCards/build_datacard.py:415-417 | read back, the line of a card with shapes names the bin `cat_<category>` and the file |
| Lego.ReservedSections | LegoCards/build_datacard.py:70 | reading `d_input['setup']['reserved_sections']` needs a mapping input |
| Lego.CategoryText | LegoCards/build_datacard.py:542 | `str(d_input['category'])` needs a mapping input |
| Lego.WithSystematics | LegoCards/build_datacard.py:703 | storing `d_input['systematics']` changes that key and no other |
| Lego.LinesOfSystematics | LegoCards/build_datacard.py:577-616 | the table has one line per systematic of the built dict |
| Lego.LegoCards.constructor | LegoCards/build_datacard.py:52-81 | the fields start as the constructor sets them, and the process list is the signals followed by the backgrounds |
| Lego.LegoCards.Create | LegoCards/build_datacard.py:52-81 | construction fails exactly when a lookup fails; otherwise the lists are the sorted signals and backgrounds |
| Lego.LegoCards.ScaleLumiBy | LegoCards/build_datacard.py:277-290 | the scale is stored, and the header gains the notice only for a scale other than 1 |
| Lego.LegoCards.GetProcesses | LegoCards/build_datacard.py:498-518 | the method computes `_get_processes` on the current input |
| Lego.LegoCards.GetProcessLines | LegoCards/build_datacard.py:521-565 | the lines use the category bin and the current scale; `'sys'` stays empty; the bin line is `cat_<category>` per process |
| Lego.LegoCards.GetSystematicsDict | LegoCards/build_datacard.py:620-704 | the built dict is returned and stored as `d_input['systematics']`; on failure the input is unchanged |
| Lego.LegoCards.GetSystematicsLines | LegoCards/build_datacard.py:577-616 | the table of the built dict, which is stored into the input |
| Lego.LegoCards.GetShapesLine | LegoCards/build_datacard.py:394-419 | `shapes_exist` is set exactly when the scan finds a shape, and `workspace_file` is set only then |
| Builder.ReservedSections | build_datacard.py:60 | reading `d_input['setup']['reserved_sections']` needs a mapping input |
| Builder.FunctionsAndDefinitions | build_datacard.py:206-218 | the stored entry, or `[]` when a plain dict lacks it; a non-mapping raises `TypeError` |
| Builder.SectionLines | build_datacard.py:372-406 | the count is the number of entries of `d_input['systematics']` |
| Builder.DatacardBuilder.constructor | build_datacard.py:47-71 | the fields start as the constructor sets them, and the process list is the signals followed by the backgrounds |
| Builder.DatacardBuilder.Create | build_datacard.py:47-71 | construction fails exactly when a lookup fails; otherwise the lists are the sorted signals and backgrounds |
| Builder.DatacardBuilder.ScaleLumiBy | build_datacard.py:192-203 | the scale is stored, and the header gains the notice only for a scale other than 1 |
| Builder.DatacardBuilder.GetProcesses | build_datacard.py:302-319 | the method computes `_get_processes` on the current input |
| Builder.DatacardBuilder.GetProcessLines | build_datacard.py:322-363 | bins are `cat_<datacard name>`; `'sys'` is the placeholder when there is a process and empty otherwise |
| Builder.DatacardBuilder.GetSystematicsLines | build_datacard.py:372-406 | the table of `d_input['systematics']` |
| Builder.DatacardBuilder.GetShapesLine | build_datacard.py:222-245 | the line names `cat_<datacard name>`; `shapes_exist` is set exactly when a shape is found, and `shapes_output_file` only then |

## Left out

- File reading is not modelled. The YAML/XML/JSON/INI loaders are an `Env` map from
  (type, path) to a mapping. `os.path.abspath`, `dirname` and `join` are functions
  passed in.
- `dump_to_json`, `dump_to_yaml`, `item`, `get_cfg_dirname`, `set_cfg_dir` and
  `_get_abspath` are not modelled: they are I/O or stubs.
- Floating point is not modelled. The following are parameters:
  - `str(float(rate) * lumi_scaling)` is `rateText`;
  - `'{0:3.2f}'.format(lumi_scaling)` is `lumiText`;
  - `str(lumi_scaling)` is `scaleText`;
  - `float(sys_size[0])` is `toFloat`.
- Python dict iteration order is not modelled. Loops over a dict visit its keys in
  increasing order. The order-independent results are proved for any order
  (`FlattenLaws.UnflattenOfFlatSubset`).
- Keys are strings. Integer YAML keys are not modelled.
- ROOT and RooFit work is not modelled: `make_workspace`, `_get_template` and
  `ToyDataSetManager`.
- `make_txt_card` and `_get_observed_rate` are not modelled: file output and a plain
  lookup.
- Logging, `pprint`, `optparse` and `main` are not modelled.
- `LegoCards._get_functions_and_definitions` is not part of this model: it calls
  `flatten_list` from `lib.util.MiscTools`, which is not available. The older builder's
  version is modelled (`Builder.FunctionsAndDefinitions`).
- `nested_dict(level, type)` and `_nested_levels` are not modelled: fixed-depth
  factories. `Systematics.NestedDictOf` covers only the one-argument calls the
  builders make.
- Resolver.Fetch: nested reads spend `fuel`. A configuration that references itself
  ends with `RecursionLimit` where Python would exhaust its stack.
- `datacard_name` is a string. The `None` default of `LegoCards` is not modelled.
- `workspace_file` and `shapes_output_file` are `Option` fields. Python gives the
  object the attribute only once a shape is found.
- Resolver.Select: its `ensures` covers only the exact-lookup case. The wildcard case
  is stated by `ResolverLaws.WildcardSelection`.
- NestedDict.Write: its `ensures` says only what kind of mapping comes back. The
  outcome and the effect are `FlattenLaws.WriteOutcome`, `WriteEffect` and
  `WritePrefixes`.
- Values.Repr: a float prints with the text `str()` gives it. Python 2.7's `repr` prints
  the shortest text that reads back, which can have more digits.
- Values.Repr: a string counts as `unicode` when its text is not ASCII, as the YAML
  loader decides. JSON gives `unicode` even for ASCII text, whose `repr` starts with
  `u`; the model prints it without. The surrogate pairs of a narrow Python build are
  not modelled.
- Values.Show: a string prints bare even when it is not ASCII. Python 2's `str()` of
  such a `unicode` value raises `UnicodeEncodeError`.
- Resolver.Resolved: every string leaf is checked for references. Python 2 checks only
  `str` leaves, so a `unicode` leaf stays as it is: JSON text, or YAML text that is
  not ASCII.
- Resolver.Load: a loader's document is a mapping. An empty YAML file loads as `None`,
  and `cfg_dict.update(None)` raises `TypeError`; the model has no such document.
- Datacard.Index: a missing key of a `nested_dict` yields an empty child without
  storing it. The `defaultdict` also inserts that child into the mapping.
- Lego.LegoCards.GetSystematicsDict: the model updates a copy of the input mapping.
  The source changes the caller's dict in place, so other references to it see the
  change.
- ResolverLaws.EmbeddedReferenceInsert: the text around the reference differs from the
  group. Text equal to a group is read as a reference too (`tok in matching_tokens`);
  `Resolver.InsertTokens` models that, but this lemma does not state it.
- ResolverLaws.TextSubstitution: it has the same restriction on the text tokens.
- ResolverLaws.FirstFailingReference: it has the same restriction on the text tokens.
- Systematics.OverrideTypeWord assumes that no process is named `type`. Such a process
  would have its size written over the systematic's type.

## Findings

| source | as written | input that shows it | evidently intended | confidence | as-written member | corrected member |
|---|---|---|---|---|---|---|
| LegoCards/build_datacard.py:351-355 | the range flag is `len(vals.split(',')) == 2`, and the pattern lets `vals` end in a comma | `mass4l[105,]` gives `('mass4l', True)` | only `name[lo,hi]` with two numbers is a range, as the comment "range should be an interval" says | not executed | FactoryStatement.TrailingCommaIsRange | FactoryStatement.CheckFactoryStatementIntended |
