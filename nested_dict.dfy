/** The nested-dictionary toolkit: flattening a tree of mappings into a map from key
    paths to leaves, filtering such a flat map by wildcard tags, rebuilding a tree
    from key paths, converting between `nested_dict` and plain `dict` trees, and the
    recursive update of a `nested_dict`. */
module NestedDict {
  import opened Text
  import opened Values
  import opened Glob

  /** A key tuple of a flattened dictionary. */
  type FlatKey = seq<Key>

  /** A flattened dictionary: key tuples to the values found at their end. */
  type Flat = map<FlatKey, Value>

  // ---------------------------------------------------------------------------
  // Paths into a tree
  // ---------------------------------------------------------------------------

  /** The value reached from `v` by successive subscripts along `p`, if every step
      lands on a mapping that holds the next key. */
  function Lookup(v: Value, p: FlatKey): Option<Value>
    decreases |p|
  {
    if p == [] then Some(v)
    else if v.Dict? && p[0] in v.entries then Lookup(v.entries[p[0]], p[1..])
    else None
  }

  lemma {:induction false} LookupAppend(v: Value, p: FlatKey, q: FlatKey)
    requires Lookup(v, p).Some?
    ensures Lookup(v, p + q) == Lookup(Lookup(v, p).value, q)
    decreases |p|
  {
    if p != [] {
      assert (p + q)[0] == p[0];
      assert (p + q)[1..] == p[1..] + q;
      assert v.Dict? && p[0] in v.entries;
      var c := v.entries[p[0]];
      assert Lookup(v, p) == Lookup(c, p[1..]);
      assert Lookup(v, p + q) == Lookup(c, p[1..] + q);
      LookupAppend(c, p[1..], q);
    } else {
      assert p + q == q;
    }
  }

  /** `p` leads to a value that is not a mapping. */
  predicate IsLeafPath(d: Value, p: FlatKey) {
    p != [] && Lookup(d, p).Some? && !Lookup(d, p).value.Dict?
  }

  // ---------------------------------------------------------------------------
  // flatten_nested_items / flatten
  // ---------------------------------------------------------------------------

  /** The key tuples `flatten_nested_items` yields for the mapping `d`: it descends into
      every value that is itself a mapping and yields every other value, lists
      included. */
  function LeafPaths(d: Value): (r: set<FlatKey>)
    requires d.Dict?
    decreases d, 0
  {
    set k, p | k in d.entries && p in ChildPaths(d.entries[k]) :: [k] + p
  }

  function ChildPaths(v: Value): set<FlatKey>
    decreases v, 1
  {
    if v.Dict? then LeafPaths(v) else {[]}
  }

  /** The key tuples yielded are exactly the paths to values that are not mappings. */
  lemma {:induction false} LeafPathsAreLeaves(d: Value, p: FlatKey)
    requires d.Dict?
    ensures p in LeafPaths(d) <==> IsLeafPath(d, p)
    decreases d
  {
    if p in LeafPaths(d) {
      var k, q :| k in d.entries && q in ChildPaths(d.entries[k]) && [k] + q == p;
      assert p[0] == k && p[1..] == q;
      var c := d.entries[k];
      assert Lookup(d, p) == Lookup(c, q);
      if c.Dict? {
        LeafPathsAreLeaves(c, q);
      } else {
        assert q == [];
      }
    }
    if IsLeafPath(d, p) {
      var k := p[0];
      var q := p[1..];
      var c := d.entries[k];
      assert p == [k] + q;
      assert Lookup(d, p) == Lookup(c, q);
      if c.Dict? {
        assert q != [];
        LeafPathsAreLeaves(c, q);
        assert q in ChildPaths(c);
        assert [k] + q in LeafPaths(d);
      } else {
        assert q == [];
        assert q in ChildPaths(c);
        assert [k] + q in LeafPaths(d);
      }
    }
  }

  /** What `flatten_nested_items` yields, collected into a map: one entry per value
      that is not a mapping, keyed by the non-empty tuple of keys leading to it.
      Empty mappings contribute nothing. */
  function FlatOf(d: Value): (r: Flat)
    requires d.Dict?
    ensures forall p :: p in r <==> IsLeafPath(d, p)
    ensures forall p | p in r :: Lookup(d, p) == Some(r[p])
  {
    forall p ensures p in LeafPaths(d) <==> IsLeafPath(d, p) {
      LeafPathsAreLeaves(d, p);
    }
    map p | p in LeafPaths(d) :: Lookup(d, p).value
  }

  /** `flatten(dictionary)`: converts the argument with `nested_dict(...)` and copies
      every flattened item into the result. */
  method Flatten(dictionary: Value) returns (result: Flat)
    requires dictionary.Dict?
    ensures result == FlatOf(dictionary)
  {
    var converted := NestedFromDict(dictionary);
    FlatIgnoresNesting(dictionary, converted);
    var items := FlatOf(converted);
    result := map[];
    var todo := items.Keys;
    while todo != {}
      invariant todo <= items.Keys
      invariant result.Keys == items.Keys - todo
      invariant forall p | p in result :: result[p] == items[p]
      decreases |todo|
    {
      var p :| p in todo;
      result := result[p := items[p]];
      todo := todo - {p};
    }
    assert result == items;
  }

  // ---------------------------------------------------------------------------
  // nested_dict_from_dict / to_dict
  // ---------------------------------------------------------------------------

  /** `nested_dict_from_dict(orig, nested_dict())`: every mapping reachable through
      mappings becomes a `nested_dict`; other values, lists included, stay as they are. */
  function NestedFromDict(v: Value): (r: Value)
    ensures v.Dict? <==> r.Dict?
    ensures v.Dict? ==> r.nested && r.entries.Keys == v.entries.Keys
    ensures !v.Dict? ==> r == v
    decreases v
  {
    match v
    case Dict(entries, _) => Dict(map k | k in entries :: NestedFromDict(entries[k]), true)
    case _ => v
  }

  /** `to_dict()`: a plain `dict` at this level, recursing only into children that are
      `nested_dict`s; plain `dict` children are kept as they are. */
  function ToDict(v: Value): (r: Value)
    requires v.Dict?
    ensures r.Dict? && !r.nested && r.entries.Keys == v.entries.Keys
    decreases v
  {
    Dict(map k | k in v.entries ::
      if v.entries[k].Dict? && v.entries[k].nested then ToDict(v.entries[k]) else v.entries[k], false)
  }

  /** Every mapping reachable through mappings is a `nested_dict`. */
  predicate AllNested(v: Value)
    decreases v
  {
    v.Dict? ==> v.nested && forall k | k in v.entries :: AllNested(v.entries[k])
  }

  lemma {:induction false} NestedFromDictAllNested(v: Value)
    ensures AllNested(NestedFromDict(v))
    decreases v
  {
    if v.Dict? {
      forall k | k in v.entries ensures AllNested(NestedFromDict(v).entries[k]) {
        NestedFromDictAllNested(v.entries[k]);
      }
    }
  }

  /** `nested_dict_from_dict` looks only at the shape of the tree, not at which of its
      mappings were already nested. */
  lemma {:induction false} NestedFromDictOfPlain(v: Value)
    ensures NestedFromDict(Plain(v)) == NestedFromDict(v)
    decreases v
  {
    if v.Dict? {
      forall k | k in v.entries ensures NestedFromDict(Plain(v).entries[k]) == NestedFromDict(v.entries[k]) {
        NestedFromDictOfPlain(v.entries[k]);
      }
    }
  }

  /** `to_dict` also keeps the shape; on a tree of `nested_dict`s it yields plain dicts
      throughout. */
  lemma {:induction false} ToDictPlain(v: Value)
    requires v.Dict?
    ensures Plain(ToDict(v)) == Plain(v)
    ensures AllNested(v) ==> ToDict(v) == Plain(v)
    decreases v, 1
  {
    forall k | k in v.entries
      ensures Plain(ToDict(v).entries[k]) == Plain(v.entries[k])
      ensures AllNested(v) ==> ToDict(v).entries[k] == Plain(v.entries[k])
    {
      ToDictPlainAt(v, k);
    }
    assert Plain(ToDict(v)).entries == Plain(v).entries;
    if AllNested(v) {
      assert ToDict(v).entries == Plain(v).entries;
    }
  }

  lemma {:induction false} ToDictPlainAt(v: Value, k: Key)
    requires v.Dict? && k in v.entries
    ensures Plain(ToDict(v).entries[k]) == Plain(v.entries[k])
    ensures AllNested(v) ==> ToDict(v).entries[k] == Plain(v.entries[k])
    decreases v, 0
  {
    var c := v.entries[k];
    if c.Dict? && c.nested {
      ToDictPlain(c);
    } else if AllNested(v) {
      assert AllNested(c);
    }
  }

  /** `to_dict` of a mapping whose children are not `nested_dict`s only marks it plain. */
  lemma ToDictOfShallow(t: Value)
    requires t.Dict? && forall k | k in t.entries :: !(t.entries[k].Dict? && t.entries[k].nested)
    ensures ToDict(t) == Dict(t.entries, false)
  {
    assert ToDict(t).entries == t.entries;
  }

  /** Converting a plain tree to `nested_dict`s and back gives the plain tree. */
  lemma ToDictOfNestedFromDict(v: Value)
    requires v.Dict?
    ensures ToDict(NestedFromDict(v)) == Plain(v)
  {
    NestedFromDictAllNested(v);
    ToDictPlain(NestedFromDict(v));
    PlainOfNestedFromDict(v);
  }

  lemma {:induction false} PlainOfNestedFromDict(v: Value)
    ensures Plain(NestedFromDict(v)) == Plain(v)
    decreases v
  {
    if v.Dict? {
      forall k | k in v.entries ensures Plain(NestedFromDict(v).entries[k]) == Plain(v.entries[k]) {
        PlainOfNestedFromDict(v.entries[k]);
      }
    }
  }

  /** Converting to plain dicts and back to `nested_dict`s is the same as converting
      directly. */
  lemma NestedFromDictOfToDict(v: Value)
    requires v.Dict?
    ensures NestedFromDict(ToDict(v)) == NestedFromDict(v)
  {
    ToDictPlain(v);
    NestedFromDictOfPlain(ToDict(v));
    NestedFromDictOfPlain(v);
  }

  /** Lookups in `Plain(d)` see the same values, made plain. */
  lemma {:induction false} LookupPlain(d: Value, p: FlatKey)
    ensures Lookup(Plain(d), p).Some? <==> Lookup(d, p).Some?
    ensures Lookup(d, p).Some? ==> Lookup(Plain(d), p).value == Plain(Lookup(d, p).value)
    decreases |p|
  {
    if p != [] && d.Dict? && p[0] in d.entries {
      LookupPlain(d.entries[p[0]], p[1..]);
    }
  }

  /** Flattening ignores whether the mappings are `nested_dict`s or plain dicts. */
  lemma FlatOfPlain(d: Value)
    requires d.Dict?
    ensures FlatOf(Plain(d)) == FlatOf(d)
  {
    forall p ensures IsLeafPath(Plain(d), p) <==> IsLeafPath(d, p) {
      LookupPlain(d, p);
    }
    forall p | p in FlatOf(d) ensures FlatOf(Plain(d))[p] == FlatOf(d)[p] {
      LookupPlain(d, p);
    }
  }

  lemma FlatIgnoresNesting(a: Value, b: Value)
    requires a.Dict? && b.Dict?
    requires Plain(a) == Plain(b) || b == NestedFromDict(a) || b == ToDict(a)
    ensures FlatOf(a) == FlatOf(b)
  {
    if b == NestedFromDict(a) {
      PlainOfNestedFromDict(a);
    } else if b == ToDict(a) {
      ToDictPlain(a);
    }
    FlatOfPlain(a);
    FlatOfPlain(b);
  }

  // ---------------------------------------------------------------------------
  // filter_flatten_dict
  // ---------------------------------------------------------------------------

  /** Some item of the key tuple matches the tag. */
  predicate TagFound(key: FlatKey, tag: string)
    requires Compile(tag).Some?
  {
    exists i :: 0 <= i < |key| && Matches(Compile(tag).value, key[i])
  }

  /** Every tag is found in some item of the key tuple, at any position. */
  predicate KeptBy(key: FlatKey, tags: seq<string>)
    requires forall j :: 0 <= j < |tags| ==> Compile(tags[j]).Some?
  {
    forall j :: 0 <= j < |tags| ==> TagFound(key, tags[j])
  }

  predicate ValidTags(tags: seq<string>) {
    forall j :: 0 <= j < |tags| ==> Compile(tags[j]).Some?
  }

  /** Index of the first tag the pattern compiler rejects. */
  function FirstInvalidTag(tags: seq<string>): (j: nat)
    requires !ValidTags(tags)
    ensures j < |tags| && Compile(tags[j]).None?
    ensures forall m :: 0 <= m < j ==> Compile(tags[m]).Some?
  {
    if Compile(tags[0]).None? then 0 else 1 + FirstInvalidTag(tags[1..])
  }

  /** `filter_flatten_dict(dictionary, filter_tags)`. A rejected tag is raised as soon
      as any non-empty key tuple is examined. */
  function FilterFlat(f: Flat, tags: seq<string>): (r: Result<Flat>)
    ensures r.Err? <==> !ValidTags(tags) && exists key :: key in f && key != []
  {
    if !ValidTags(tags) && exists key :: key in f && key != [] then
      Err(PatternError(tags[FirstInvalidTag(tags)]))
    else
      Ok(map key | key in f && Kept(key, tags) :: f[key])
  }

  /** The loop of `filter_flatten_dict`: keeps each entry whose key tuple passes
      every tag. */
  method FilterFlattenDict(dictionary: Flat, filterTags: seq<string>) returns (r: Result<Flat>)
    ensures r == FilterFlat(dictionary, filterTags)
  {
    var filtered: Flat := map[];
    var todo := dictionary.Keys;
    while todo != {}
      invariant todo <= dictionary.Keys
      invariant forall k | k in dictionary.Keys - todo :: k == [] || ValidTags(filterTags)
      invariant filtered == map k | k in dictionary.Keys - todo && Kept(k, filterTags) :: dictionary[k]
      decreases |todo|
    {
      var key :| key in todo;
      var foundTags := FoundTags(key, filterTags);
      if foundTags.Err? {
        FilterErrorIsFirst(dictionary, filterTags, key);
        return Err(foundTags.error);
      }
      assert key == [] || ValidTags(filterTags);
      ghost var before := dictionary.Keys - todo;
      if foundTags.value {
        filtered := filtered[key := dictionary[key]];
      }
      todo := todo - {key};
      assert dictionary.Keys - todo == before + {key};
    }
    assert dictionary.Keys - todo == dictionary.Keys;
    FilterOutcome(dictionary, filterTags);
    r := Ok(filtered);
  }

  /** The `found_tags` flag of `filter_flatten_dict` for one key tuple: and-ed over all
      the tags, each tag searching the items until one matches. */
  method FoundTags(key: FlatKey, tags: seq<string>) returns (r: Result<bool>)
    ensures r.Err? <==> key != [] && !ValidTags(tags)
    ensures r.Err? ==> r.error == PatternError(tags[FirstInvalidTag(tags)])
    ensures r.Ok? ==> r.value == Kept(key, tags)
  {
    var foundTags := true;
    var j := 0;
    while j < |tags|
      invariant 0 <= j <= |tags|
      invariant key != [] ==> forall m :: 0 <= m < j ==> Compile(tags[m]).Some?
      invariant foundTags == KeptSoFar(key, tags, j)
    {
      var tag := tags[j];
      var foundTag := false;
      var i := 0;
      while i < |key| && !foundTag
        invariant 0 <= i <= |key|
        invariant i > 0 ==> Compile(tag).Some?
        invariant foundTag ==> i > 0 && Matches(Compile(tag).value, key[i - 1])
        invariant !foundTag ==> forall m :: 0 <= m < i ==> !Matches(Compile(tag).value, key[m])
      {
        var m := FnMatch(key[i], tag);
        if m.Err? {
          assert FirstInvalidTag(tags) == j by {
            FirstInvalidTagIs(tags, j);
          }
          return Err(m.error);
        }
        foundTag := m.value;
        i := i + 1;
      }
      if key != [] {
        assert Compile(tag).Some?;
        assert foundTag == TagFound(key, tag);
      }
      foundTags := foundTags && foundTag;
      j := j + 1;
    }
    assert key != [] ==> ValidTags(tags);
    r := Ok(foundTags);
  }

  lemma FirstInvalidTagIs(tags: seq<string>, j: nat)
    requires j < |tags| && Compile(tags[j]).None?
    requires forall m :: 0 <= m < j ==> Compile(tags[m]).Some?
    ensures !ValidTags(tags) && FirstInvalidTag(tags) == j
  {
  }

  /** Whether a key survives, also for the empty key tuple, which no tag can be found in. */
  predicate Kept(key: FlatKey, tags: seq<string>) {
    if key == [] then tags == []
    else ValidTags(tags) && KeptBy(key, tags)
  }

  /** `found_tags` after the first `j` tags. */
  predicate KeptSoFar(key: FlatKey, tags: seq<string>, j: nat)
    requires j <= |tags|
  {
    if key == [] then j == 0
    else forall m :: 0 <= m < j ==> Compile(tags[m]).Some? && TagFound(key, tags[m])
  }

  lemma FilterErrorIsFirst(f: Flat, tags: seq<string>, key: FlatKey)
    requires key in f && key != [] && !ValidTags(tags)
    ensures FilterFlat(f, tags) == Err(PatternError(tags[FirstInvalidTag(tags)]))
  {
  }

  lemma FilterOutcome(f: Flat, tags: seq<string>)
    requires forall key | key in f :: key == [] || ValidTags(tags)
    ensures FilterFlat(f, tags) == Ok(map key | key in f && Kept(key, tags) :: f[key])
  {
    if !ValidTags(tags) {
      assert !exists key :: key in f && key != [];
    }
  }

  // ---------------------------------------------------------------------------
  // unflatten
  // ---------------------------------------------------------------------------

  /** One step of `unflatten`: walks `root` along all but the last key, creating a plain
      `dict()` for each missing key, and binds the last key to `value`. An empty key
      tuple has no last key (IndexError); a step onto something that is not a
      mapping fails (TypeError). */
  function Write(root: Value, key: FlatKey, value: Value): (r: Result<Value>)
    ensures r.Ok? ==> root.Dict? && r.value.Dict? && r.value.nested == root.nested
    decreases |key|
  {
    if key == [] then Err(IndexError)
    else if !root.Dict? then Err(TypeError)
    else if |key| == 1 then Ok(Dict(root.entries[key[0] := value], root.nested))
    else
      var child := if key[0] in root.entries then root.entries[key[0]] else EmptyDict;
      match Write(child, key[1..], value)
      case Err(e) => Err(e)
      case Ok(c) => Ok(Dict(root.entries[key[0] := c], root.nested))
  }

  /** `unflatten` over its items in the order they are visited, starting from `root`. */
  function UnflattenFrom(root: Value, items: seq<(FlatKey, Value)>): Result<Value>
    decreases |items|
  {
    if items == [] then Ok(root)
    else
      match Write(root, items[0].0, items[0].1)
      case Err(e) => Err(e)
      case Ok(next) => UnflattenFrom(next, items[1..])
  }

  /** `unflatten(dictionary)` for the items of `dictionary` in visiting order; the
      result is a `nested_dict` at the root. */
  function Unflatten(items: seq<(FlatKey, Value)>): Result<Value> {
    UnflattenFrom(Dict(map[], true), items)
  }

  /** The loop of `unflatten`: one `Write` per item, in visiting order. */
  method UnflattenItems(items: seq<(FlatKey, Value)>) returns (r: Result<Value>)
    ensures r == Unflatten(items)
  {
    var resultDict := Dict(map[], true);
    var n := 0;
    while n < |items|
      invariant 0 <= n <= |items|
      invariant UnflattenFrom(resultDict, items[n..]) == Unflatten(items)
    {
      assert items[n..][1..] == items[n + 1..];
      var step := Write(resultDict, items[n].0, items[n].1);
      if step.Err? {
        return Err(step.error);
      }
      resultDict := step.value;
      n := n + 1;
    }
    r := Ok(resultDict);
  }

  // ---------------------------------------------------------------------------
  // _recursive_update / nested_dict.update
  // ---------------------------------------------------------------------------

  /** What `_recursive_update` leaves under one key of `other`: a value that is not a
      mapping overwrites; a mapping is merged recursively into a `nested_dict` child
      (one created empty when the key is missing, as a `defaultdict` does), merged
      shallowly with `dict.update` into a plain `dict` child, and overwrites any
      other child. */
  function UpdateChild(mine: Option<Value>, value: Value): (r: Value)
    ensures !value.Dict? ==> r == value
    ensures value.Dict? && mine.Some? && !mine.value.Dict? ==> r == value
    ensures value.Dict? ==> r.Dict? && value.entries.Keys <= r.entries.Keys
    ensures value.Dict? && mine.None? ==> r.nested && r.entries.Keys == value.entries.Keys
    ensures value.Dict? && mine.Some? && mine.value.Dict? ==>
              r.nested == mine.value.nested
              && r.entries.Keys == mine.value.entries.Keys + value.entries.Keys
              && (forall k | k in mine.value.entries && k !in value.entries :: r.entries[k] == mine.value.entries[k])
    ensures value.Dict? && mine.Some? && mine.value.Dict? && !mine.value.nested ==>
              forall k | k in value.entries :: r.entries[k] == value.entries[k]
    decreases value, 1
  {
    if !value.Dict? then value
    else
      match mine
      case None => RecursiveUpdate(Dict(map[], true), value)
      case Some(m) =>
        if m.Dict? && m.nested then RecursiveUpdate(m, value)
        else if m.Dict? then Dict(m.entries + value.entries, false)
        else value
  }

  /** `_recursive_update(nd, other)` on a `nested_dict` `nd`. */
  function RecursiveUpdate(nd: Value, other: Value): (r: Value)
    requires nd.Dict? && nd.nested && other.Dict?
    ensures r.Dict? && r.nested
    ensures r.entries.Keys == nd.entries.Keys + other.entries.Keys
    ensures forall k | k in nd.entries && k !in other.entries :: r.entries[k] == nd.entries[k]
    decreases other, 0
  {
    Dict(map k | k in nd.entries.Keys + other.entries.Keys ::
      if k in other.entries then UpdateChild(Get(nd, k), other.entries[k]) else nd.entries[k], true)
  }

  function Get(d: Value, k: Key): (r: Option<Value>)
    requires d.Dict?
    ensures r.Some? <==> k in d.entries
    ensures r.Some? ==> r.value == d.entries[k]
  {
    if k in d.entries then Some(d.entries[k]) else None
  }

  /** `_recursive_update` after its loop has visited the keys in `done`. */
  function PartialUpdate(nd: Value, other: Value, done: set<Key>): (r: Value)
    requires nd.Dict? && nd.nested && other.Dict? && done <= other.entries.Keys
  {
    Dict(map k | k in nd.entries.Keys + done ::
      if k in done then UpdateChild(Get(nd, k), other.entries[k]) else nd.entries[k], true)
  }

  /** The merge laws of `_recursive_update` relative to an independent deep merge: on
      a tree of `nested_dict`s, keys only in `nd` are kept, values of `other` that are
      not mappings overwrite, and mappings are merged key by key at every depth. */
  function DeepMerge(a: Value, b: Value): (r: Value)
    requires a.Dict? && b.Dict?
    ensures r.Dict? && !r.nested && r.entries.Keys == a.entries.Keys + b.entries.Keys
    decreases b
  {
    Dict(map k | k in a.entries.Keys + b.entries.Keys ::
      if k !in b.entries then Plain(a.entries[k])
      else if k in a.entries && a.entries[k].Dict? && b.entries[k].Dict? then DeepMerge(a.entries[k], b.entries[k])
      else Plain(b.entries[k]), false)
  }

  /** On a tree of `nested_dict`s, `_recursive_update` is the deep merge (up to which
      mappings are nested). */
  lemma {:induction false} RecursiveUpdateIsDeepMerge(nd: Value, other: Value)
    requires nd.Dict? && AllNested(nd) && other.Dict?
    ensures Plain(RecursiveUpdate(nd, other)) == DeepMerge(nd, other)
    decreases other
  {
    var r := RecursiveUpdate(nd, other);
    var dm := DeepMerge(nd, other);
    forall k | k in r.entries ensures Plain(r.entries[k]) == dm.entries[k] {
      if k in other.entries {
        var value := other.entries[k];
        assert r.entries[k] == UpdateChild(Get(nd, k), value);
        if value.Dict? {
          if k in nd.entries {
            var m := nd.entries[k];
            assert AllNested(m);
            if m.Dict? {
              RecursiveUpdateIsDeepMerge(m, value);
            }
          } else {
            RecursiveUpdateIsDeepMerge(Dict(map[], true), value);
            DeepMergeEmpty(value);
          }
        }
      }
    }
    assert Plain(r).entries == dm.entries;
  }

  lemma DeepMergeEmpty(b: Value)
    requires b.Dict?
    ensures DeepMerge(Dict(map[], true), b) == Plain(b)
  {
    var r := DeepMerge(Dict(map[], true), b);
    forall k | k in b.entries ensures r.entries[k] == Plain(b).entries[k] {
    }
    assert r.entries == Plain(b).entries;
  }

  lemma PartialUpdateStep(nd: Value, other: Value, done: set<Key>, k: Key)
    requires nd.Dict? && nd.nested && other.Dict? && done <= other.entries.Keys
    requires k in other.entries && k !in done
    ensures PartialUpdate(nd, other, done + {k}).entries
         == PartialUpdate(nd, other, done).entries[k := UpdateChild(Get(nd, k), other.entries[k])]
  {
  }

  lemma PartialUpdateUntouched(nd: Value, other: Value, done: set<Key>, k: Key)
    requires nd.Dict? && nd.nested && other.Dict? && done <= other.entries.Keys
    requires k !in done
    ensures Get(PartialUpdate(nd, other, done), k) == Get(nd, k)
  {
  }

  lemma PartialUpdateAll(nd: Value, other: Value)
    requires nd.Dict? && nd.nested && other.Dict?
    ensures PartialUpdate(nd, other, other.entries.Keys) == RecursiveUpdate(nd, other)
  {
  }

  /** A `nested_dict` whose `update` runs `_recursive_update` on its own entries. */
  class NestedDictionary {
    var entries: map<Key, Value>

    /** `nested_dict(d)` for an existing dict `d`. */
    constructor FromDict(d: Value)
      requires d.Dict?
      ensures Dict(entries, true) == NestedFromDict(d)
    {
      entries := NestedFromDict(d).entries;
    }

    function AsValue(): (r: Value)
      reads this
      ensures r.Dict? && r.nested && r.entries == entries
    {
      Dict(entries, true)
    }

    /** `update(other)`: visits the keys of `other` one at a time; each visit settles
        that key's entry and no other. */
    method Update(other: Value)
      requires other.Dict?
      modifies this
      ensures AsValue() == RecursiveUpdate(old(AsValue()), other)
    {
      ghost var start := AsValue();
      var todo := other.entries.Keys;
      ghost var done: set<Key> := {};
      while todo != {}
        invariant todo !! done && todo + done == other.entries.Keys
        invariant entries == PartialUpdate(start, other, done).entries
        decreases |todo|
      {
        var k :| k in todo;
        var mine := if k in entries then Some(entries[k]) else None;
        assert mine == Get(start, k) by {
          PartialUpdateUntouched(start, other, done, k);
        }
        ghost var next := PartialUpdate(start, other, done + {k}).entries;
        assert next == entries[k := UpdateChild(Get(start, k), other.entries[k])] by {
          PartialUpdateStep(start, other, done, k);
        }
        entries := entries[k := UpdateChild(mine, other.entries[k])];
        done := done + {k};
        todo := todo - {k};
      }
      PartialUpdateAll(start, other);
    }

    /** `to_dict()`. */
    function ToPlainDict(): (r: Value)
      reads this
      ensures r == ToDict(AsValue())
      ensures r.Dict? && !r.nested && r.entries.Keys == entries.Keys
    {
      ToDict(AsValue())
    }
  }
}
