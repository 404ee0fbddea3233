/** The systematics dictionary of `LegoCards` (`_get_systematics_dict` and
    `_reduce_to_expected_systematic_dict` in `LegoCards/build_datacard.py`): the
    `systematics` section, a dict or a list of dicts keyed by systematic, then
    category, then process, is reduced to `{systematic: {process or 'type': value}}`,
    and the per-process `systematics` entries under `processes` override it. */
module Systematics {
  import opened Text
  import opened Values
  import opened NestedDict
  import opened FlattenLaws
  import opened Datacard

  const TypeKey: Key := "type"
  const SystematicsKey: Key := "systematics"
  const ParamPrefix: string := "param"

  const FormatReason: string := "Wrong format of systematics dictionary. Should be sys_name:process_sys_size"
  const SameSystematicReason: string := "Wrong format of systematics dictionary. You might be picking same systematics for different categories. Be careful!"
  const CategoriesReason: string := "Wrong format of systematics dictionary. You might be selecting more categories. Be careful!"

  // ---------------------------------------------------------------------------
  // The shape checks of _reduce_to_expected_systematic_dict
  // ---------------------------------------------------------------------------

  /** The last key of a key tuple (`tuple_key[-1]`). */
  function Last(k: FlatKey): Key
    requires k != []
  {
    k[|k| - 1]
  }

  /** The key tuples without their last key (`key[:-1]`, the `keys_set`). */
  function Prefixes(flat: Flat): (r: set<FlatKey>)
    ensures forall k | k in flat && k != [] :: k[..|k| - 1] in r
  {
    set k | k in flat && k != [] :: k[..|k| - 1]
  }

  /** The first keys of the prefixes (`item[0]`): the systematic names. */
  function Heads(prefixes: set<FlatKey>): set<Key> {
    set p | p in prefixes && p != [] :: p[0]
  }

  /** The rest of the prefixes (`item[1:]`): the category paths. */
  function Middles(prefixes: set<FlatKey>): set<FlatKey> {
    set p | p in prefixes && p != [] :: p[1..]
  }

  /** Every key tuple has a systematic name and a last key. */
  predicate AllLong(flat: Flat) {
    forall k | k in flat :: |k| >= 2
  }

  /** Two key tuples of the same systematic share everything but their last key. */
  ghost predicate OnePathPerSystematic(flat: Flat)
    requires AllLong(flat)
  {
    forall k1, k2 | k1 in flat && k2 in flat && k1[0] == k2[0] :: k1[..|k1| - 1] == k2[..|k2| - 1]
  }

  /** There is at least one key tuple, and all of them have the same keys between the
      systematic name and the last key. */
  ghost predicate OneCategoryPath(flat: Flat)
    requires AllLong(flat)
  {
    flat != map[] && forall k1, k2 | k1 in flat && k2 in flat :: k1[1..|k1| - 1] == k2[1..|k2| - 1]
  }

  /** A set has no more first keys than members; as many exactly when no two members
      share their first key. */
  lemma {:induction false} HeadsCount(prefixes: set<FlatKey>)
    requires forall p | p in prefixes :: p != []
    ensures |Heads(prefixes)| <= |prefixes|
    ensures |Heads(prefixes)| == |prefixes| <==>
              forall p1, p2 | p1 in prefixes && p2 in prefixes && p1[0] == p2[0] :: p1 == p2
    decreases |prefixes|
  {
    if prefixes != {} {
      var x :| x in prefixes;
      var rest := prefixes - {x};
      HeadsCount(rest);
      assert Heads(prefixes) == Heads(rest) + {x[0]};
      if x[0] in Heads(rest) {
        var y :| y in rest && y != [] && y[0] == x[0];
        assert Heads(prefixes) == Heads(rest);
        assert y != x;
      } else {
        assert |Heads(prefixes)| == |Heads(rest)| + 1;
        assert forall p | p in rest :: p[0] != x[0];
      }
    } else {
      assert Heads(prefixes) == {};
    }
  }

  /** One category path exactly when all the prefixes have the same rest. */
  lemma MiddlesCount(prefixes: set<FlatKey>)
    requires forall p | p in prefixes :: p != []
    ensures |Middles(prefixes)| == 1 <==>
              prefixes != {} && forall p1, p2 | p1 in prefixes && p2 in prefixes :: p1[1..] == p2[1..]
  {
    if |Middles(prefixes)| == 1 {
      var m :| m in Middles(prefixes);
      var others := Middles(prefixes) - {m};
      assert |others| == 0;
      forall p | p in prefixes ensures p[1..] == m {
        assert p[1..] in Middles(prefixes);
        assert p[1..] !in others;
      }
    }
    if prefixes != {} && forall p1, p2 | p1 in prefixes && p2 in prefixes :: p1[1..] == p2[1..] {
      var x :| x in prefixes;
      assert Middles(prefixes) == {x[1..]};
    }
  }

  /** The first two checks of `_reduce_to_expected_systematic_dict`, stated without
      counting: as many systematic names as prefixes exactly when each systematic has
      one path, and one category path exactly when all key tuples share it. */
  lemma ShapeChecks(flat: Flat)
    requires AllLong(flat)
    ensures |Heads(Prefixes(flat))| == |Prefixes(flat)| <==> OnePathPerSystematic(flat)
    ensures |Middles(Prefixes(flat))| == 1 <==> OneCategoryPath(flat)
  {
    var prefixes := Prefixes(flat);
    assert forall p | p in prefixes :: p != [];
    HeadsCount(prefixes);
    MiddlesCount(prefixes);
    if |Heads(prefixes)| == |prefixes| {
      DistinctHeadsOnePath(flat, prefixes);
    }
    if OnePathPerSystematic(flat) {
      OnePathDistinctHeads(flat, prefixes);
    }
    if |Middles(prefixes)| == 1 {
      OneMiddleOneCategory(flat, prefixes);
    }
    if OneCategoryPath(flat) {
      OneCategoryOneMiddle(flat, prefixes);
    }
  }

  lemma DistinctHeadsOnePath(flat: Flat, prefixes: set<FlatKey>)
    requires AllLong(flat) && prefixes == Prefixes(flat)
    requires forall p1, p2 | p1 in prefixes && p2 in prefixes && p1[0] == p2[0] :: p1 == p2
    ensures OnePathPerSystematic(flat)
  {
    forall k1, k2 | k1 in flat && k2 in flat && k1[0] == k2[0] ensures k1[..|k1| - 1] == k2[..|k2| - 1] {
      assert k1[..|k1| - 1][0] == k2[..|k2| - 1][0];
    }
  }

  lemma OnePathDistinctHeads(flat: Flat, prefixes: set<FlatKey>)
    requires AllLong(flat) && prefixes == Prefixes(flat) && OnePathPerSystematic(flat)
    ensures forall p1, p2 | p1 in prefixes && p2 in prefixes && p1[0] == p2[0] :: p1 == p2
  {
    forall p1, p2 | p1 in prefixes && p2 in prefixes && p1[0] == p2[0] ensures p1 == p2 {
      var k1 :| k1 in flat && k1 != [] && p1 == k1[..|k1| - 1];
      var k2 :| k2 in flat && k2 != [] && p2 == k2[..|k2| - 1];
      assert k1[0] == k2[0];
    }
  }

  lemma OneMiddleOneCategory(flat: Flat, prefixes: set<FlatKey>)
    requires AllLong(flat) && prefixes == Prefixes(flat) && prefixes != {}
    requires forall p1, p2 | p1 in prefixes && p2 in prefixes :: p1[1..] == p2[1..]
    ensures OneCategoryPath(flat)
  {
    forall k1, k2 | k1 in flat && k2 in flat ensures k1[1..|k1| - 1] == k2[1..|k2| - 1] {
      assert k1[..|k1| - 1][1..] == k1[1..|k1| - 1];
      assert k2[..|k2| - 1][1..] == k2[1..|k2| - 1];
    }
    var p :| p in prefixes;
    assert flat != map[];
  }

  lemma OneCategoryOneMiddle(flat: Flat, prefixes: set<FlatKey>)
    requires AllLong(flat) && prefixes == Prefixes(flat) && OneCategoryPath(flat)
    ensures prefixes != {} && forall p1, p2 | p1 in prefixes && p2 in prefixes :: p1[1..] == p2[1..]
  {
    forall p1, p2 | p1 in prefixes && p2 in prefixes ensures p1[1..] == p2[1..] {
      var k1 :| k1 in flat && k1 != [] && p1 == k1[..|k1| - 1];
      var k2 :| k2 in flat && k2 != [] && p2 == k2[..|k2| - 1];
      assert k1[..|k1| - 1][1..] == k1[1..|k1| - 1];
      assert k2[..|k2| - 1][1..] == k2[1..|k2| - 1];
    }
    var k :| k in flat;
    assert k[..|k| - 1] in prefixes;
  }

  // ---------------------------------------------------------------------------
  // Re-keying and unflattening
  // ---------------------------------------------------------------------------

  /** The reduced key of a key tuple: `(tuple_key[0], tuple_key[-1])`. */
  function PairKey(k: FlatKey): (p: FlatKey)
    requires k != []
    ensures |p| == 2 && p[0] == k[0] && p[1] == Last(k)
  {
    [k[0], Last(k)]
  }

  /** A key tuple survives the reduction when its last key is a process or `'type'`. */
  predicate Kept(k: FlatKey, procs: seq<Key>)
    requires k != []
  {
    Last(k) in procs || Last(k) == TypeKey
  }

  /** No two key tuples share their systematic name and their last key. */
  predicate PairKeysInjective(flat: Flat)
    requires AllLong(flat)
  {
    forall k1, k2 {:trigger PairKey(k1), PairKey(k2)} | k1 in flat && k2 in flat && PairKey(k1) == PairKey(k2) :: k1 == k2
  }

  /** `flat_sys_dict_reduced` after the loop has visited the key tuples `done`: each kept
      one under `(tuple_key[0], tuple_key[-1])`. With one path per systematic no two
      key tuples land on the same pair. */
  function ReKeyed(flat: Flat, done: set<FlatKey>, procs: seq<Key>): (r: map<FlatKey, Value>)
    requires AllLong(flat) && PairKeysInjective(flat)
    ensures Pairs(r)
  {
    map k | k in done && k in flat && Kept(k, procs) :: PairKey(k) := flat[k]
  }

  /** With one path per systematic, a key tuple is fixed by its systematic name and its
      last key. */
  lemma ReKeyInjective(flat: Flat)
    requires AllLong(flat) && OnePathPerSystematic(flat)
    ensures PairKeysInjective(flat)
  {
    forall k1, k2 | k1 in flat && k2 in flat && PairKey(k1) == PairKey(k2) ensures k1 == k2 {
      assert PairKey(k1)[0] == PairKey(k2)[0] && PairKey(k1)[1] == PairKey(k2)[1];
      assert k1 == k1[..|k1| - 1] + [Last(k1)];
      assert k2 == k2[..|k2| - 1] + [Last(k2)];
    }
  }

  /** As many systematic names as prefixes: no two key tuples share their systematic
      name and their last key. */
  lemma DistinctHeadsInjective(flat: Flat)
    requires AllLong(flat) && |Prefixes(flat)| == |Heads(Prefixes(flat))|
    ensures PairKeysInjective(flat)
  {
    ShapeChecks(flat);
    ReKeyInjective(flat);
  }

  /** Every key of the reduced dictionary is a pair: a systematic and a process (or
      `'type'`). */
  predicate Pairs(m: map<FlatKey, Value>) {
    forall k | k in m :: |k| == 2
  }

  /** The systematics named in a pair-keyed dictionary. */
  function Firsts(m: map<FlatKey, Value>): set<Key>
    requires Pairs(m)
  {
    set k | k in m :: k[0]
  }

  /** The entries of systematic `s` in a pair-keyed dictionary, by their second key. */
  function Row(m: map<FlatKey, Value>, s: Key): map<Key, Value>
    requires Pairs(m)
  {
    PairsAreLists(m);
    map k | k in m && k[0] == s :: k[1] := m[k]
  }

  /** The row of `s` holds `l` exactly when the pair `[s, l]` is a key, with its value. */
  lemma RowMembers(m: map<FlatKey, Value>, s: Key)
    requires Pairs(m)
    ensures forall l :: l in Row(m, s) <==> [s, l] in m
    ensures forall l | l in Row(m, s) :: Row(m, s)[l] == m[[s, l]]
  {
    PairsAreLists(m);
    forall l | [s, l] in m ensures l in Row(m, s) {
      assert [s, l][0] == s && [s, l][1] == l;
    }
  }

  lemma PairsAreLists(m: map<FlatKey, Value>)
    requires Pairs(m)
    ensures forall k | k in m :: k == [k[0], k[1]]
  {
  }

  /** What `unflatten` builds from a pair-keyed dictionary: a `nested_dict` holding a
      plain `dict()` per systematic. */
  function TwoLevel(m: map<FlatKey, Value>): Value
    requires Pairs(m)
  {
    Dict(map s | s in Firsts(m) :: Dict(Row(m, s), false), true)
  }

  /** The dictionary after `d[k] = v` for the items in visiting order. */
  function ApplyItems(m: map<FlatKey, Value>, items: seq<(FlatKey, Value)>): map<FlatKey, Value>
    decreases |items|
  {
    if items == [] then m else ApplyItems(m[items[0].0 := items[0].1], items[1..])
  }

  lemma {:induction false} ApplyItemsSnoc(m: map<FlatKey, Value>, items: seq<(FlatKey, Value)>, k: FlatKey, v: Value)
    ensures ApplyItems(m, items + [(k, v)]) == ApplyItems(m, items)[k := v]
    decreases |items|
  {
    if items == [] {
      assert [(k, v)][1..] == [];
    } else {
      assert (items + [(k, v)])[1..] == items[1..] + [(k, v)];
      ApplyItemsSnoc(m[items[0].0 := items[0].1], items[1..], k, v);
    }
  }

  lemma RowUpdated(m: map<FlatKey, Value>, s: Key, l: Key, v: Value)
    requires Pairs(m)
    ensures Pairs(m[[s, l] := v])
    ensures Row(m[[s, l] := v], s) == Row(m, s)[l := v]
  {
    var m' := m[[s, l] := v];
    RowMembers(m, s);
    RowMembers(m', s);
    forall l' ensures l' in Row(m', s) <==> l' in Row(m, s)[l := v] {
      assert [s, l'] == [s, l] <==> l' == l;
    }
  }

  lemma RowOthers(m: map<FlatKey, Value>, s: Key, l: Key, v: Value, s': Key)
    requires Pairs(m) && s' != s
    ensures Pairs(m[[s, l] := v])
    ensures Row(m[[s, l] := v], s') == Row(m, s')
  {
    var m' := m[[s, l] := v];
    forall l' ensures l' in Row(m', s') <==> l' in Row(m, s') {
      assert [s', l'] != [s, l];
    }
  }

  lemma FirstsUpdated(m: map<FlatKey, Value>, s: Key, l: Key, v: Value)
    requires Pairs(m)
    ensures Pairs(m[[s, l] := v])
    ensures Firsts(m[[s, l] := v]) == Firsts(m) + {s}
  {
    var m' := m[[s, l] := v];
    assert [s, l] in m' && [s, l][0] == s;
  }

  lemma TwoLevelUpdated(m: map<FlatKey, Value>, s: Key, l: Key, v: Value)
    requires Pairs(m)
    ensures Pairs(m[[s, l] := v])
    ensures TwoLevel(m[[s, l] := v]).entries == TwoLevel(m).entries[s := Dict(Row(m, s)[l := v], false)]
  {
    var m' := m[[s, l] := v];
    var after := TwoLevel(m').entries;
    var expected := TwoLevel(m).entries[s := Dict(Row(m, s)[l := v], false)];
    FirstsUpdated(m, s, l, v);
    RowUpdated(m, s, l, v);
    forall s' | s' in after ensures s' in expected && expected[s'] == after[s'] {
      if s' != s {
        RowOthers(m, s, l, v, s');
      }
    }
    MapsEqual(after, expected);
  }

  /** One step of `unflatten` with a pair key: the systematic's `dict()` is created if
      missing and the second key bound in it. */
  lemma WriteTwoLevel(m: map<FlatKey, Value>, s: Key, l: Key, v: Value)
    requires Pairs(m)
    ensures Pairs(m[[s, l] := v])
    ensures Write(TwoLevel(m), [s, l], v) == Ok(TwoLevel(m[[s, l] := v]))
  {
    var root := TwoLevel(m);
    assert [s, l][1..] == [l];
    var child := if s in root.entries then root.entries[s] else EmptyDict;
    assert child == Dict(Row(m, s), false);
    assert Write(child, [l], v) == Ok(Dict(Row(m, s)[l := v], false));
    TwoLevelUpdated(m, s, l, v);
  }

  /** `unflatten` over pair-keyed items builds the two-level dictionary of the items
      applied in order. */
  lemma {:induction false} UnflattenTwoLevel(m: map<FlatKey, Value>, items: seq<(FlatKey, Value)>)
    requires Pairs(m) && forall i | 0 <= i < |items| :: |items[i].0| == 2
    ensures Pairs(ApplyItems(m, items))
    ensures UnflattenFrom(TwoLevel(m), items) == Ok(TwoLevel(ApplyItems(m, items)))
    decreases |items|
  {
    if items != [] {
      var k := items[0].0;
      assert k == [k[0], k[1]];
      WriteTwoLevel(m, k[0], k[1], items[0].1);
      UnflattenTwoLevel(m[k := items[0].1], items[1..]);
    }
  }

  /** Applying the items of an enumeration of `f` to an empty dictionary gives `f`
      back. */
  lemma ApplyEnumeration(items: seq<(FlatKey, Value)>, f: map<FlatKey, Value>)
    requires Enumerates(items, f)
    ensures ApplyItems(map[], items) == f
  {
    ApplyItemsAgree(items, f);
    assert KeysOf(items) == f.Keys by {
      forall k | k in f ensures k in KeysOf(items) {
        var i :| 0 <= i < |items| && items[i].0 == k;
      }
    }
  }

  lemma {:induction false} ApplyItemsAgree(items: seq<(FlatKey, Value)>, f: map<FlatKey, Value>)
    requires forall i | 0 <= i < |items| :: items[i].0 in f && f[items[i].0] == items[i].1
    ensures ApplyItems(map[], items) == map k | k in KeysOf(items) :: f[k]
    decreases |items|
  {
    if items != [] {
      var init, last := items[..|items| - 1], items[|items| - 1];
      assert items == init + [last];
      ApplyItemsSnoc(map[], init, last.0, last.1);
      ApplyItemsAgree(init, f);
      assert KeysOf(items) == KeysOf(init) + {last.0} by {
        forall k | k in KeysOf(items) ensures k in KeysOf(init) + {last.0} {
          var i :| 0 <= i < |items| && items[i].0 == k;
          if i < |init| { assert init[i].0 == k; }
        }
        forall k | k in KeysOf(init) ensures k in KeysOf(items) {
          var i :| 0 <= i < |init| && init[i].0 == k;
          assert items[i].0 == k;
        }
      }
    }
  }

  /** Each kept key tuple lands on its systematic and last key. */
  lemma ReKeyedHas(flat: Flat, done: set<FlatKey>, procs: seq<Key>, k: FlatKey)
    requires AllLong(flat) && PairKeysInjective(flat)
    requires k in done && k in flat && Kept(k, procs)
    ensures PairKey(k) in ReKeyed(flat, done, procs)
    ensures ReKeyed(flat, done, procs)[PairKey(k)] == flat[k]
  {
  }

  /** Each pair of the reduced dictionary comes from one kept key tuple. */
  lemma ReKeyedOrigin(flat: Flat, done: set<FlatKey>, procs: seq<Key>, p: FlatKey) returns (k: FlatKey)
    requires AllLong(flat) && PairKeysInjective(flat)
    requires p in ReKeyed(flat, done, procs)
    ensures k in done && k in flat && Kept(k, procs) && p == PairKey(k)
    ensures ReKeyed(flat, done, procs)[p] == flat[k]
  {
    k :| k in done && k in flat && Kept(k, procs) && p == PairKey(k);
    ReKeyedHas(flat, done, procs, k);
  }

  lemma ReKeyedStep(flat: Flat, done: set<FlatKey>, procs: seq<Key>, k: FlatKey)
    requires AllLong(flat) && PairKeysInjective(flat)
    requires k in flat
    ensures Kept(k, procs) ==> ReKeyed(flat, done + {k}, procs) == ReKeyed(flat, done, procs)[PairKey(k) := flat[k]]
    ensures !Kept(k, procs) ==> ReKeyed(flat, done + {k}, procs) == ReKeyed(flat, done, procs)
  {
    var before, after := ReKeyed(flat, done, procs), ReKeyed(flat, done + {k}, procs);
    if Kept(k, procs) {
      ReKeyedGrow(flat, done, procs, k, before, after);
    } else {
      ReKeyedSkip(flat, done, procs, k, before, after);
    }
  }

  lemma ReKeyedSkip(flat: Flat, done: set<FlatKey>, procs: seq<Key>, k: FlatKey,
                    before: map<FlatKey, Value>, after: map<FlatKey, Value>)
    requires AllLong(flat) && PairKeysInjective(flat)
    requires k in flat && !Kept(k, procs)
    requires before == ReKeyed(flat, done, procs) && after == ReKeyed(flat, done + {k}, procs)
    ensures after == before
  {
    forall q | q in after ensures q in before && before[q] == after[q] {
      var k' := ReKeyedOrigin(flat, done + {k}, procs, q);
      ReKeyedHas(flat, done, procs, k');
    }
    forall q | q in before ensures q in after {
      var k' := ReKeyedOrigin(flat, done, procs, q);
      ReKeyedHas(flat, done + {k}, procs, k');
    }
    MapsEqual(after, before);
  }

  lemma ReKeyedGrow(flat: Flat, done: set<FlatKey>, procs: seq<Key>, k: FlatKey,
                    before: map<FlatKey, Value>, after: map<FlatKey, Value>)
    requires AllLong(flat) && PairKeysInjective(flat)
    requires k in flat && Kept(k, procs)
    requires before == ReKeyed(flat, done, procs) && after == ReKeyed(flat, done + {k}, procs)
    ensures after == before[PairKey(k) := flat[k]]
  {
    var grown := before[PairKey(k) := flat[k]];
    forall q | q in after ensures q in grown && grown[q] == after[q] {
      GrownHasAfter(flat, done, procs, k, q);
    }
    forall q | q in grown ensures q in after {
      AfterHasGrown(flat, done, procs, k, q);
    }
    MapsEqual(after, grown);
  }

  lemma GrownHasAfter(flat: Flat, done: set<FlatKey>, procs: seq<Key>, k: FlatKey, q: FlatKey)
    requires AllLong(flat) && PairKeysInjective(flat)
    requires k in flat && Kept(k, procs)
    requires q in ReKeyed(flat, done + {k}, procs)
    ensures q in ReKeyed(flat, done, procs)[PairKey(k) := flat[k]]
    ensures ReKeyed(flat, done, procs)[PairKey(k) := flat[k]][q] == ReKeyed(flat, done + {k}, procs)[q]
  {
    var k' := ReKeyedOrigin(flat, done + {k}, procs, q);
    if k' != k {
      ReKeyedHas(flat, done, procs, k');
      assert q != PairKey(k);
    }
  }

  lemma AfterHasGrown(flat: Flat, done: set<FlatKey>, procs: seq<Key>, k: FlatKey, q: FlatKey)
    requires AllLong(flat) && PairKeysInjective(flat)
    requires k in flat && Kept(k, procs)
    requires q in ReKeyed(flat, done, procs)[PairKey(k) := flat[k]]
    ensures q in ReKeyed(flat, done + {k}, procs)
  {
    if q == PairKey(k) {
      ReKeyedHas(flat, done + {k}, procs, k);
    } else {
      var k' := ReKeyedOrigin(flat, done, procs, q);
      ReKeyedHas(flat, done + {k}, procs, k');
    }
  }

  lemma MapsEqual<K, V>(a: map<K, V>, b: map<K, V>)
    requires forall q | q in a :: q in b && b[q] == a[q]
    requires forall q | q in b :: q in a
    ensures a == b
  {
  }

  // ---------------------------------------------------------------------------
  // _reduce_to_expected_systematic_dict
  // ---------------------------------------------------------------------------

  /** The checks and the re-keying of `_reduce_to_expected_systematic_dict`, on the
      flattened dictionary: every key tuple must have at least two keys, one path per
      systematic and one category path; then the kept key tuples are re-keyed by
      systematic and last key and unflattened. */
  function ReduceFlat(flat: Flat, procs: seq<Key>): (r: Result<Value>)
    ensures r.Ok? ==> r.value.Dict? && r.value.nested
  {
    if !AllLong(flat) then Err(AssertionError(FormatReason))
    else if |Prefixes(flat)| != |Heads(Prefixes(flat))| then Err(AssertionError(SameSystematicReason))
    else if |Middles(Prefixes(flat))| != 1 then Err(AssertionError(CategoriesReason))
    else
      DistinctHeadsInjective(flat);
      Ok(TwoLevel(ReKeyed(flat, flat.Keys, procs)))
  }

  /** `_reduce_to_expected_systematic_dict(sys_dict)`. */
  function ReduceSpec(sysDict: Value, procs: seq<Key>): (r: Result<Value>)
    requires sysDict.Dict?
    ensures r.Ok? ==> r.value.Dict? && r.value.nested
  {
    ReduceFlat(FlatOf(sysDict), procs)
  }

  /** The reduction succeeds exactly on a systematics section whose key tuples all have
      a systematic and a last key, with one path per systematic and one category path
      shared by all. */
  lemma ReduceAccepts(flat: Flat, procs: seq<Key>)
    ensures ReduceFlat(flat, procs).Ok? <==>
              AllLong(flat) && OnePathPerSystematic(flat) && OneCategoryPath(flat)
  {
    ReduceFlatCases(flat, procs);
    if AllLong(flat) {
      ShapeChecks(flat);
    }
  }

  lemma ReduceFlatOk(flat: Flat, procs: seq<Key>)
    requires AllLong(flat) && PairKeysInjective(flat)
    requires |Prefixes(flat)| == |Heads(Prefixes(flat))| && |Middles(Prefixes(flat))| == 1
    ensures ReduceFlat(flat, procs) == Ok(TwoLevel(ReKeyed(flat, flat.Keys, procs)))
  {
  }

  lemma ReduceFlatCases(flat: Flat, procs: seq<Key>)
    ensures ReduceFlat(flat, procs).Ok? <==>
              AllLong(flat) && |Prefixes(flat)| == |Heads(Prefixes(flat))| && |Middles(Prefixes(flat))| == 1
  {
  }

  /** The reduced dictionary holds, for every leaf whose last key is a process or
      `'type'`, its value under its systematic and that key, and nothing else: each
      systematic maps to a non-empty plain `dict` whose entries all come from such
      leaves. */
  lemma ReduceEntries(flat: Flat, procs: seq<Key>)
    requires ReduceFlat(flat, procs).Ok?
    ensures AllLong(flat)
    ensures var r := ReduceFlat(flat, procs).value;
      && r.Dict? && r.nested
      && (forall s | s in r.entries :: r.entries[s].Dict? && !r.entries[s].nested && r.entries[s].entries != map[])
      && (forall k | k in flat && Kept(k, procs) :: Lookup(r, PairKey(k)) == Some(flat[k]))
      && (forall p | |p| == 2 && Lookup(r, p).Some? :: exists k :: k in flat && Kept(k, procs) && PairKey(k) == p)
  {
    ReduceFlatCases(flat, procs);
    DistinctHeadsInjective(flat);
    var reduced := ReKeyed(flat, flat.Keys, procs);
    ReduceFlatOk(flat, procs);
    var r := ReduceFlat(flat, procs).value;
    assert r == TwoLevel(reduced);
    TwoLevelOfReKeyed(flat, procs, reduced, r);
  }

  lemma TwoLevelOfReKeyed(flat: Flat, procs: seq<Key>, reduced: map<FlatKey, Value>, r: Value)
    requires AllLong(flat) && PairKeysInjective(flat)
    requires reduced == ReKeyed(flat, flat.Keys, procs) && r == TwoLevel(reduced)
    ensures r.Dict? && r.nested
    ensures forall s | s in r.entries :: r.entries[s].Dict? && !r.entries[s].nested && r.entries[s].entries != map[]
    ensures forall k | k in flat && Kept(k, procs) :: Lookup(r, PairKey(k)) == Some(flat[k])
    ensures forall p | |p| == 2 && Lookup(r, p).Some? :: exists k :: k in flat && Kept(k, procs) && PairKey(k) == p
  {
    forall s | s in r.entries ensures r.entries[s].Dict? && !r.entries[s].nested && r.entries[s].entries != map[] {
      RowNonEmpty(reduced, s);
    }
    forall k | k in flat && Kept(k, procs) ensures Lookup(r, PairKey(k)) == Some(flat[k]) {
      ReKeyedHas(flat, flat.Keys, procs, k);
      TwoLevelAt(reduced, PairKey(k));
    }
    forall p | |p| == 2 && Lookup(r, p).Some?
      ensures exists k :: k in flat && Kept(k, procs) && PairKey(k) == p
    {
      TwoLevelAt(reduced, p);
      var k := ReKeyedOrigin(flat, flat.Keys, procs, p);
    }
  }

  /** Every systematic of a pair-keyed dictionary has a non-empty row. */
  lemma RowNonEmpty(m: map<FlatKey, Value>, s: Key)
    requires Pairs(m) && s in Firsts(m)
    ensures Row(m, s) != map[]
  {
    var k :| k in m && k[0] == s;
    RowMembers(m, s);
    PairsAreLists(m);
    assert k[1] in Row(m, s);
  }

  /** A path of two keys reaches a value of the two-level dictionary exactly when it is
      a key of the pair-keyed one, and reaches its value. */
  lemma TwoLevelAt(m: map<FlatKey, Value>, p: FlatKey)
    requires Pairs(m) && |p| == 2
    ensures Lookup(TwoLevel(m), p) == if p in m then Some(m[p]) else None
  {
    var s, l := p[0], p[1];
    assert p == [s, l];
    RowMembers(m, s);
    var r := TwoLevel(m);
    assert p[1..] == [l] && [l][1..] == [];
    if s in r.entries {
      var row := Row(m, s);
      assert r.entries[s] == Dict(row, false);
      assert Lookup(r, p) == Lookup(Dict(row, false), [l]);
      if l in row {
        assert Lookup(Dict(row, false), [l]) == Lookup(row[l], []);
      } else {
        assert Lookup(Dict(row, false), [l]) == None;
      }
    } else {
      assert Lookup(r, p) == None;
    }
  }

  /** `_reduce_to_expected_systematic_dict` as the loops it is written with. */
  method ReduceToExpected(sysDict: Value, procs: seq<Key>) returns (r: Result<Value>)
    requires sysDict.Dict?
    ensures r == ReduceSpec(sysDict, procs)
  {
    var flat := Flatten(sysDict);
    r := ReduceFlatLoops(flat, procs);
  }

  method ReduceFlatLoops(flat: Flat, procs: seq<Key>) returns (r: Result<Value>)
    ensures r == ReduceFlat(flat, procs)
  {
    var long := CheckKeyLengths(flat);
    if !long {
      return Err(AssertionError(FormatReason));
    }
    var keysSet := Prefixes(flat);
    if |keysSet| != |Heads(keysSet)| {
      return Err(AssertionError(SameSystematicReason));
    }
    if |Middles(keysSet)| != 1 {
      return Err(AssertionError(CategoriesReason));
    }
    DistinctHeadsInjective(flat);
    var reduced := ReKeyLoop(flat, procs);
    r := UnflattenPairs(reduced);
    ReduceFlatOk(flat, procs);
  }

  /** The first loop: every key tuple must have at least two keys. */
  method CheckKeyLengths(flat: Flat) returns (long: bool)
    ensures long == AllLong(flat)
  {
    var todo := flat.Keys;
    while todo != {}
      invariant todo <= flat.Keys
      invariant forall k | k in flat && k !in todo :: |k| >= 2
      decreases |todo|
    {
      var k :| k in todo;
      if |k| < 2 {
        return false;
      }
      todo := todo - {k};
    }
    return true;
  }

  /** The re-keying loop over the items of the flattened dictionary. */
  method ReKeyLoop(flat: Flat, procs: seq<Key>) returns (reduced: map<FlatKey, Value>)
    requires AllLong(flat) && PairKeysInjective(flat)
    ensures reduced == ReKeyed(flat, flat.Keys, procs)
  {
    var items := ItemsOf(flat);
    reduced := ReKeyItems(flat, procs, items);
    EnumeratedKeys(items, flat);
    assert items[..|items|] == items;
  }

  method ReKeyItems(flat: Flat, procs: seq<Key>, items: seq<(FlatKey, Value)>) returns (reduced: map<FlatKey, Value>)
    requires AllLong(flat) && PairKeysInjective(flat)
    requires forall i | 0 <= i < |items| :: items[i].0 in flat && flat[items[i].0] == items[i].1
    ensures reduced == ReKeyed(flat, KeysOf(items[..|items|]), procs)
  {
    reduced := map[];
    var n := 0;
    ghost var done: set<FlatKey> := {};
    assert items[..0] == [];
    while n < |items|
      invariant 0 <= n <= |items|
      invariant done == KeysOf(items[..n])
      invariant reduced == ReKeyed(flat, done, procs)
    {
      KeysOfSnoc(items, n);
      reduced := ReduceItem(flat, procs, reduced, done, items[n].0, items[n].1);
      done := done + {items[n].0};
      n := n + 1;
    }
  }

  /** `unflatten` of the re-keyed dictionary: the two-level dictionary. */
  method UnflattenPairs(reduced: map<FlatKey, Value>) returns (r: Result<Value>)
    requires Pairs(reduced)
    ensures r == Ok(TwoLevel(reduced))
  {
    var pairs := ItemsOf(reduced);
    ApplyEnumeration(pairs, reduced);
    UnflattenTwoLevel(map[], pairs);
    assert TwoLevel(map[]) == Dict(map[], true);
    r := UnflattenItems(pairs);
  }

  /** One turn of the re-keying loop: a kept key tuple is stored under its systematic
      and last key, any other is skipped. */
  method ReduceItem(flat: Flat, procs: seq<Key>, reduced: map<FlatKey, Value>, ghost done: set<FlatKey>,
                    key: FlatKey, value: Value) returns (next: map<FlatKey, Value>)
    requires AllLong(flat) && PairKeysInjective(flat)
    requires key in flat && value == flat[key]
    requires reduced == ReKeyed(flat, done, procs)
    ensures next == ReKeyed(flat, done + {key}, procs)
  {
    ReKeyedStep(flat, done, procs, key);
    next := reduced;
    if Last(key) in procs || Last(key) == TypeKey {
      next := reduced[[key[0], Last(key)] := value];
    }
  }

  // ---------------------------------------------------------------------------
  // _get_systematics_dict
  // ---------------------------------------------------------------------------

  /** `float(text)` on the size of an override: the conversion and its `ValueError` are
      not modelled, so the builder is handed one. */
  type FloatParser = string -> Result<Value>

  /** The message of the type assertion of an override, its three fields filled in. */
  function TypeMismatchMessage(sysId: Key, oldType: string, newType: string): string {
    MismatchLead + sysId + MismatchOld + oldType + MismatchNew + newType + MismatchTail
  }

  const MismatchLead: string :=
    "Systematics type needs to be the same as in existing dictionary!"
    + "Otherwise you will mix-up the systematics for other processes.\n"
    + "So, the systematic type under processes section should be the same as one already provided within systematics section.\n"
    + "Systematic "
  const MismatchOld: string := ".type is Old:"
  const MismatchNew: string := " New:"
  const MismatchTail: string := ". Make them the same or just create a new systematic error name."

  /** `nested_dict(x)` with one argument: a dict is converted; an `int` (a `bool` is
      one) is a number of levels, and below two levels the factory it makes is not
      callable; anything else raises while formatting the error message, which names
      an undefined `factory`. */
  function NestedDictOf(v: Value): (r: Result<Value>)
    ensures r.Ok? ==> r.value.Dict? && r.value.nested
    ensures v.Dict? ==> r == Ok(NestedFromDict(v))
  {
    match v
    case Dict(_, _) => Ok(NestedFromDict(v))
    case Int(i) => if i >= 2 then Ok(Dict(map[], true)) else Err(TypeError)
    case Bool(_) => Err(TypeError)
    case _ => Err(NameError("factory"))
  }

  /** The reduced dictionaries of a list of systematics sections merged in list order
      into `acc` with `nested_dict.update`. */
  function MergeReduced(acc: Value, items: seq<Value>, procs: seq<Key>): (r: Result<Value>)
    requires acc.Dict? && acc.nested
    ensures r.Ok? ==> r.value.Dict? && r.value.nested
    decreases |items|
  {
    if items == [] then Ok(acc)
    else
      var nd :- NestedDictOf(items[0]);
      var reduced :- ReduceSpec(nd, procs);
      MergeReduced(RecursiveUpdate(acc, reduced), items[1..], procs)
  }

  /** `sys_dict` before the per-process overrides: the reduced `systematics` section, the
      merge of the reduced sections of a list, or an empty `nested_dict`. */
  function StartSpec(sysInputs: Value, procs: seq<Key>): (r: Result<Value>)
    ensures r.Ok? ==> r.value.Dict? && r.value.nested
  {
    match sysInputs
    case Dict(_, _) => ReduceSpec(NestedFromDict(sysInputs), procs)
    case List(items) => MergeReduced(Dict(map[], true), items, procs)
    case _ => Ok(Dict(map[], true))
  }

  /** `str(sys_value).split()`: the type word and the sizes after it. */
  function OverrideWords(sysValue: Value): (r: Result<(string, seq<string>)>)
    ensures r.Ok? <==> Words(Show(sysValue)) != []
    ensures r.Ok? ==> Words(Show(sysValue)) == [r.value.0] + r.value.1
    ensures r.Err? ==> r.error == IndexError
  {
    var ws := Words(Show(sysValue));
    if ws == [] then Err(IndexError) else Ok((ws[0], ws[1..]))
  }

  /** One override `sys_id: sys_value` under process `proc`. For a systematic already
      in `sys_dict` the first word of its type must agree with the override's; a `param`
      override then replaces the type, any other sets the process's size. An unknown
      systematic gets a new plain dict. */
  function Override(sysDict: Value, proc: Key, sysId: Key, sysValue: Value, toFloat: FloatParser): (r: Result<Value>)
    requires sysDict.Dict?
    ensures r.Ok? ==> r.value.Dict? && r.value.nested == sysDict.nested
    ensures r.Ok? ==> r.value.entries.Keys == sysDict.entries.Keys + {sysId}
    ensures r.Ok? ==> forall k | k in sysDict.entries && k != sysId :: r.value.entries[k] == sysDict.entries[k]
  {
    var words :- OverrideWords(sysValue);
    var entry :-
      if sysId in sysDict.entries then KnownOverride(sysDict.entries[sysId], proc, sysId, sysValue, words.0, words.1, toFloat)
      else NewOverride(proc, sysValue, words.0, words.1, toFloat);
    Ok(Dict(sysDict.entries[sysId := entry], sysDict.nested))
  }

  /** The override of a known systematic's entry: its type is checked, then set. */
  function KnownOverride(entry: Value, proc: Key, sysId: Key, sysValue: Value, sysType: string, sizes: seq<string>,
                         toFloat: FloatParser): (r: Result<Value>)
    ensures r.Ok? ==> entry.Dict? && r.value.Dict? && r.value.nested == entry.nested
  {
    var oldType :- KnownType(entry, sysId, sysType);
    SetOverride(entry, proc, sysValue, sysType, sizes, toFloat)
  }

  /** The first word of a known systematic's type, which must be the override's. */
  function KnownType(entry: Value, sysId: Key, sysType: string): (r: Result<string>)
    ensures r.Ok? ==> entry.Dict? && r.value == sysType
  {
    var ty :- Index(entry, TypeKey);
    if !ty.Str? then Err(AttributeError("split"))
    else if Words(ty.s) == [] then Err(IndexError)
    else if Words(ty.s)[0] != sysType then Err(AssertionError(TypeMismatchMessage(sysId, Words(ty.s)[0], sysType)))
    else Ok(sysType)
  }

  /** A type-checked override of an existing entry: `param` replaces the type, any
      other type sets the process's size. */
  function SetOverride(entry: Value, proc: Key, sysValue: Value, sysType: string, sizes: seq<string>,
                       toFloat: FloatParser): (r: Result<Value>)
    requires entry.Dict?
    ensures r.Ok? ==> r.value.Dict? && r.value.nested == entry.nested
  {
    if StartsWith(sysType, ParamPrefix) then Ok(Dict(entry.entries[TypeKey := sysValue], entry.nested))
    else if sizes == [] then Err(IndexError)
    else
      var size :- toFloat(sizes[0]);
      Ok(Dict(entry.entries[proc := size], entry.nested))
  }

  /** The entry of a systematic the override introduces. */
  function NewOverride(proc: Key, sysValue: Value, sysType: string, sizes: seq<string>, toFloat: FloatParser): (r: Result<Value>)
    ensures r.Ok? ==> r.value.Dict? && !r.value.nested
  {
    if StartsWith(sysType, ParamPrefix) then Ok(Dict(map[TypeKey := sysValue], false))
    else if sizes == [] then Err(IndexError)
    else
      var size :- toFloat(sizes[0]);
      Ok(Dict(map[TypeKey := Str(sysType)][proc := size], false))
  }

  /** The `type` of systematic entry `e` starts with the word `w`. */
  predicate TypeStartsWith(e: Value, w: string) {
    e.Dict? && TypeKey in e.entries && Words(Show(e.entries[TypeKey])) != [] && Words(Show(e.entries[TypeKey]))[0] == w
  }

  /** After an override the systematic's type starts with the override's first word:
      a `param` override stores `sys_value` itself, a new systematic stores the first
      word, and a known one passed the type check. (A process named `type` would have
      its size written over the type.) */
  lemma OverrideTypeWord(sysDict: Value, proc: Key, sysId: Key, sysValue: Value, toFloat: FloatParser)
    requires sysDict.Dict? && Override(sysDict, proc, sysId, sysValue, toFloat).Ok?
    requires proc != TypeKey
    ensures TypeStartsWith(Override(sysDict, proc, sysId, sysValue, toFloat).value.entries[sysId], Words(Show(sysValue))[0])
  {
    var words := OverrideWords(sysValue).value;
    if sysId in sysDict.entries {
      KnownTypeWord(sysDict.entries[sysId], proc, sysId, sysValue, words.0, words.1, toFloat);
    } else {
      NewTypeWord(proc, sysValue, words.0, words.1, toFloat);
    }
  }

  lemma KnownTypeWord(entry: Value, proc: Key, sysId: Key, sysValue: Value, sysType: string, sizes: seq<string>,
                      toFloat: FloatParser)
    requires KnownOverride(entry, proc, sysId, sysValue, sysType, sizes, toFloat).Ok?
    requires Words(Show(sysValue)) != [] && Words(Show(sysValue))[0] == sysType && proc != TypeKey
    ensures TypeStartsWith(KnownOverride(entry, proc, sysId, sysValue, sysType, sizes, toFloat).value, sysType)
  {
    assert TypeStartsWith(entry, sysType);
  }

  lemma NewTypeWord(proc: Key, sysValue: Value, sysType: string, sizes: seq<string>, toFloat: FloatParser)
    requires NewOverride(proc, sysValue, sysType, sizes, toFloat).Ok?
    requires Words(Show(sysValue)) != [] && Words(Show(sysValue))[0] == sysType && proc != TypeKey
    ensures TypeStartsWith(NewOverride(proc, sysValue, sysType, sizes, toFloat).value, sysType)
  {
    if !StartsWith(sysType, ParamPrefix) {
      WordsOfWord(sysType);
    }
  }

  /** A type mismatch with a known systematic is refused with the source's message. */
  lemma OverrideRefusesMismatch(sysDict: Value, proc: Key, sysId: Key, sysValue: Value, toFloat: FloatParser)
    requires sysDict.Dict? && sysId in sysDict.entries
    requires var e := sysDict.entries[sysId]; e.Dict? && TypeKey in e.entries && e.entries[TypeKey].Str?
    requires Words(sysDict.entries[sysId].entries[TypeKey].s) != [] && Words(Show(sysValue)) != []
    requires Words(sysDict.entries[sysId].entries[TypeKey].s)[0] != Words(Show(sysValue))[0]
    ensures Override(sysDict, proc, sysId, sysValue, toFloat)
         == Err(AssertionError(TypeMismatchMessage(sysId, Words(sysDict.entries[sysId].entries[TypeKey].s)[0],
                                                   Words(Show(sysValue))[0])))
  {
    var words := OverrideWords(sysValue).value;
    assert KnownType(sysDict.entries[sysId], sysId, words.0)
        == Err(AssertionError(TypeMismatchMessage(sysId, Words(sysDict.entries[sysId].entries[TypeKey].s)[0], words.0)));
  }

  /** The systematic's entry after a successful override, and how it came about. */
  lemma OverrideEntryOf(sysDict: Value, proc: Key, sysId: Key, sysValue: Value, toFloat: FloatParser)
    returns (words: (string, seq<string>), entry: Value)
    requires sysDict.Dict? && Override(sysDict, proc, sysId, sysValue, toFloat).Ok?
    ensures OverrideWords(sysValue) == Ok(words)
    ensures Override(sysDict, proc, sysId, sysValue, toFloat).value.entries[sysId] == entry
    ensures sysId in sysDict.entries ==>
              KnownOverride(sysDict.entries[sysId], proc, sysId, sysValue, words.0, words.1, toFloat) == Ok(entry)
    ensures sysId !in sysDict.entries ==> NewOverride(proc, sysValue, words.0, words.1, toFloat) == Ok(entry)
  {
    words := OverrideWords(sysValue).value;
    entry := Override(sysDict, proc, sysId, sysValue, toFloat).value.entries[sysId];
  }

  /** An override whose type is not `param...` sets the process's size to the second
      word read as a float and keeps every other field of the systematic; a new
      systematic gets the first word as its type. */
  lemma OverrideSetsSize(sysDict: Value, proc: Key, sysId: Key, sysValue: Value, toFloat: FloatParser)
    requires sysDict.Dict? && Override(sysDict, proc, sysId, sysValue, toFloat).Ok?
    requires !StartsWith(Words(Show(sysValue))[0], ParamPrefix)
    ensures |Words(Show(sysValue))| >= 2 && toFloat(Words(Show(sysValue))[1]).Ok?
    ensures sysId in sysDict.entries ==>
            var old_ := sysDict.entries[sysId];
            old_.Dict? && Override(sysDict, proc, sysId, sysValue, toFloat).value.entries[sysId]
                          == Dict(old_.entries[proc := toFloat(Words(Show(sysValue))[1]).value], old_.nested)
    ensures sysId !in sysDict.entries ==>
            Override(sysDict, proc, sysId, sysValue, toFloat).value.entries[sysId]
            == Dict(map[TypeKey := Str(Words(Show(sysValue))[0]), proc := toFloat(Words(Show(sysValue))[1]).value], false)
  {
    var words, entry := OverrideEntryOf(sysDict, proc, sysId, sysValue, toFloat);
    if sysId in sysDict.entries {
      KnownSetsSize(sysDict.entries[sysId], proc, sysId, sysValue, words.0, words.1, toFloat);
    }
  }

  lemma KnownSetsSize(entry: Value, proc: Key, sysId: Key, sysValue: Value, sysType: string, sizes: seq<string>,
                      toFloat: FloatParser)
    requires KnownOverride(entry, proc, sysId, sysValue, sysType, sizes, toFloat).Ok?
    requires !StartsWith(sysType, ParamPrefix)
    ensures entry.Dict? && sizes != [] && toFloat(sizes[0]).Ok?
    ensures KnownOverride(entry, proc, sysId, sysValue, sysType, sizes, toFloat).value
         == Dict(entry.entries[proc := toFloat(sizes[0]).value], entry.nested)
  {
    assert KnownType(entry, sysId, sysType).Ok?;
  }

  /** A `param...` override replaces the systematic's type by `sys_value` and keeps its
      other fields; a new systematic holds the type alone. */
  lemma OverrideReplacesParam(sysDict: Value, proc: Key, sysId: Key, sysValue: Value, toFloat: FloatParser)
    requires sysDict.Dict? && Override(sysDict, proc, sysId, sysValue, toFloat).Ok?
    requires StartsWith(Words(Show(sysValue))[0], ParamPrefix)
    ensures sysId in sysDict.entries ==>
            var old_ := sysDict.entries[sysId];
            old_.Dict? && Override(sysDict, proc, sysId, sysValue, toFloat).value.entries[sysId]
                          == Dict(old_.entries[TypeKey := sysValue], old_.nested)
    ensures sysId !in sysDict.entries ==>
            Override(sysDict, proc, sysId, sysValue, toFloat).value.entries[sysId] == Dict(map[TypeKey := sysValue], false)
  {
    var words, entry := OverrideEntryOf(sysDict, proc, sysId, sysValue, toFloat);
    if sysId in sysDict.entries {
      assert KnownType(sysDict.entries[sysId], sysId, words.0).Ok?;
    }
  }

  /** The overrides `ids[i..]` of process `proc`, in that order. */
  function OverridesFrom(sysDict: Value, proc: Key, procSys: map<Key, Value>, ids: seq<Key>, i: nat,
                         toFloat: FloatParser): (r: Result<Value>)
    requires sysDict.Dict? && i <= |ids| && forall j | 0 <= j < |ids| :: ids[j] in procSys
    ensures r.Ok? ==> r.value.Dict? && r.value.nested == sysDict.nested
    decreases |ids| - i
  {
    if i == |ids| then Ok(sysDict)
    else
      var next :- Override(sysDict, proc, ids[i], procSys[ids[i]], toFloat);
      OverridesFrom(next, proc, procSys, ids, i + 1, toFloat)
  }

  /** A process's overrides add exactly the systematics it names and leave every other
      systematic as it was. */
  lemma {:induction false} OverridesFromFrame(sysDict: Value, proc: Key, procSys: map<Key, Value>, ids: seq<Key>, i: nat,
                                              toFloat: FloatParser)
    requires sysDict.Dict? && i <= |ids| && forall j | 0 <= j < |ids| :: ids[j] in procSys
    requires OverridesFrom(sysDict, proc, procSys, ids, i, toFloat).Ok?
    ensures var r := OverridesFrom(sysDict, proc, procSys, ids, i, toFloat).value;
            r.entries.Keys == sysDict.entries.Keys + Names(ids, i)
    ensures var r := OverridesFrom(sysDict, proc, procSys, ids, i, toFloat).value;
            forall k | k in sysDict.entries && k !in Names(ids, i) :: r.entries[k] == sysDict.entries[k]
    decreases |ids| - i
  {
    if i < |ids| {
      var next := OverridesFromStep(sysDict, proc, procSys, ids, i, toFloat);
      OverridesFromFrame(next, proc, procSys, ids, i + 1, toFloat);
    }
  }

  /** The first override of `ids[i..]` and what it leaves for the rest. */
  lemma OverridesFromStep(sysDict: Value, proc: Key, procSys: map<Key, Value>, ids: seq<Key>, i: nat,
                          toFloat: FloatParser) returns (next: Value)
    requires sysDict.Dict? && i < |ids| && forall j | 0 <= j < |ids| :: ids[j] in procSys
    requires OverridesFrom(sysDict, proc, procSys, ids, i, toFloat).Ok?
    ensures next.Dict? && next.entries.Keys == sysDict.entries.Keys + {ids[i]}
    ensures forall k | k in sysDict.entries && k != ids[i] :: next.entries[k] == sysDict.entries[k]
    ensures OverridesFrom(sysDict, proc, procSys, ids, i, toFloat) == OverridesFrom(next, proc, procSys, ids, i + 1, toFloat)
  {
    next := Override(sysDict, proc, ids[i], procSys[ids[i]], toFloat).value;
  }

  /** The systematic names `ids[i..]`. */
  function Names(ids: seq<Key>, i: nat): (r: set<Key>)
    requires i <= |ids|
    ensures forall k :: k in r <==> k in ids[i..]
    decreases |ids| - i
  {
    if i == |ids| then {} else {ids[i]} + Names(ids, i + 1)
  }

  /** `d_input['processes'][proc_id]['systematics']`. */
  function ProcSystematics(dInput: Value, proc: Key): Result<Value> {
    var procs :- Index(dInput, ProcessesKey);
    var setup :- Index(procs, proc);
    Index(setup, SystematicsKey)
  }

  /** The overrides of one process: none when looking them up raises `KeyError`, all of
      them, in increasing name order, when they form a dict. */
  function ProcessOverrides(sysDict: Value, dInput: Value, proc: Key, toFloat: FloatParser): (r: Result<Value>)
    requires sysDict.Dict?
    ensures r.Ok? ==> r.value.Dict? && r.value.nested == sysDict.nested
  {
    var found :- CatchKeyError(ProcSystematics(dInput, proc));
    if found.None? then Ok(sysDict)
    else if !found.value.Dict? then Err(AttributeError("iteritems"))
    else OverridesFrom(sysDict, proc, found.value.entries, SortedOf(found.value.entries.Keys), 0, toFloat)
  }

  /** The overrides of the processes `procs[i..]`, in process-list order. */
  function AllOverrides(sysDict: Value, dInput: Value, procs: seq<Key>, i: nat, toFloat: FloatParser): (r: Result<Value>)
    requires sysDict.Dict? && i <= |procs|
    ensures r.Ok? ==> r.value.Dict? && r.value.nested == sysDict.nested
    decreases |procs| - i
  {
    if i == |procs| then Ok(sysDict)
    else
      var next :- ProcessOverrides(sysDict, dInput, procs[i], toFloat);
      AllOverrides(next, dInput, procs, i + 1, toFloat)
  }

  /** `_get_systematics_dict` on the input `dInput` and the process list `procs`: the
      plain dict stored back as `d_input['systematics']` and returned. */
  function SystematicsDict(dInput: Value, procs: seq<Key>, toFloat: FloatParser): (r: Result<Value>)
    ensures r.Ok? ==> r.value.Dict? && !r.value.nested
  {
    var sysInputs :- Index(dInput, SystematicsKey);
    var start :- StartSpec(sysInputs, procs);
    var final :- AllOverrides(start, dInput, procs, 0, toFloat);
    Ok(ToDict(final))
  }

  // ---------------------------------------------------------------------------
  // The loops of _get_systematics_dict
  // ---------------------------------------------------------------------------

  /** `sys_dict` before the overrides: a dict section is reduced; the sections of a
      list are reduced one by one and merged into a `nested_dict` with `update`. */
  method BuildStart(sysInputs: Value, procs: seq<Key>) returns (r: Result<Value>)
    ensures r == StartSpec(sysInputs, procs)
  {
    if sysInputs.Dict? {
      r := ReduceToExpected(NestedFromDict(sysInputs), procs);
    } else if sysInputs.List? {
      var items := sysInputs.items;
      var sysDict := new NestedDictionary.FromDict(Dict(map[], true));
      assert sysDict.AsValue() == Dict(map[], true);
      assert items[0..] == items;
      var i := 0;
      while i < |items|
        invariant 0 <= i <= |items|
        invariant sysDict.AsValue().Dict? && sysDict.AsValue().nested
        invariant MergeReduced(sysDict.AsValue(), items[i..], procs) == StartSpec(sysInputs, procs)
      {
        assert items[i..][0] == items[i] && items[i..][1..] == items[i + 1..];
        var nd := NestedDictOf(items[i]);
        if nd.Err? {
          return Err(nd.error);
        }
        var reduced := ReduceToExpected(nd.value, procs);
        if reduced.Err? {
          return Err(reduced.error);
        }
        sysDict.Update(reduced.value);
        i := i + 1;
      }
      r := Ok(sysDict.AsValue());
    } else {
      r := Ok(Dict(map[], true));
    }
  }

  /** One override, statement by statement. */
  method ApplyOverride(sysDict: Value, proc: Key, sysId: Key, sysValue: Value, toFloat: FloatParser) returns (r: Result<Value>)
    requires sysDict.Dict?
    ensures r == Override(sysDict, proc, sysId, sysValue, toFloat)
  {
    var known := sysId in sysDict.entries;
    var words := Words(Show(sysValue));
    if words == [] {
      return Err(IndexError);
    }
    var entry;
    if known {
      entry := UpdateKnown(sysDict.entries[sysId], proc, sysId, sysValue, words[0], words[1..], toFloat);
    } else {
      entry := CreateNew(proc, sysValue, words[0], words[1..], toFloat);
    }
    if entry.Err? {
      return Err(entry.error);
    }
    r := Ok(Dict(sysDict.entries[sysId := entry.value], sysDict.nested));
  }

  method UpdateKnown(entry: Value, proc: Key, sysId: Key, sysValue: Value, sysType: string, sysSize: seq<string>,
                     toFloat: FloatParser) returns (r: Result<Value>)
    ensures r == KnownOverride(entry, proc, sysId, sysValue, sysType, sysSize, toFloat)
  {
    var checked := CheckType(entry, sysId, sysType);
    if checked.Err? {
      return Err(checked.error);
    }
    if StartsWith(sysType, ParamPrefix) {
      return Ok(Dict(entry.entries[TypeKey := sysValue], entry.nested));
    }
    if sysSize == [] {
      return Err(IndexError);
    }
    var size := toFloat(sysSize[0]);
    if size.Err? {
      return Err(size.error);
    }
    r := Ok(Dict(entry.entries[proc := size.value], entry.nested));
  }

  method CheckType(entry: Value, sysId: Key, sysType: string) returns (r: Result<string>)
    ensures r == KnownType(entry, sysId, sysType)
  {
    var ty := Index(entry, TypeKey);
    if ty.Err? {
      return Err(ty.error);
    }
    if !ty.value.Str? {
      return Err(AttributeError("split"));
    }
    var oldWords := Words(ty.value.s);
    if oldWords == [] {
      return Err(IndexError);
    }
    if oldWords[0] != sysType {
      return Err(AssertionError(TypeMismatchMessage(sysId, oldWords[0], sysType)));
    }
    r := Ok(sysType);
  }

  method CreateNew(proc: Key, sysValue: Value, sysType: string, sysSize: seq<string>, toFloat: FloatParser) returns (r: Result<Value>)
    ensures r == NewOverride(proc, sysValue, sysType, sysSize, toFloat)
  {
    var created: map<Key, Value> := map[];
    if StartsWith(sysType, ParamPrefix) {
      created := created[TypeKey := sysValue];
    } else {
      created := created[TypeKey := Str(sysType)];
      if sysSize == [] {
        return Err(IndexError);
      }
      var size := toFloat(sysSize[0]);
      if size.Err? {
        return Err(size.error);
      }
      created := created[proc := size.value];
    }
    r := Ok(Dict(created, false));
  }

  /** The overrides of one process, in increasing name order. */
  method ApplyProcessOverrides(sysDict: Value, proc: Key, procSys: map<Key, Value>, toFloat: FloatParser) returns (r: Result<Value>)
    requires sysDict.Dict?
    ensures r == OverridesFrom(sysDict, proc, procSys, SortedOf(procSys.Keys), 0, toFloat)
  {
    var ids := SortedOf(procSys.Keys);
    var current := sysDict;
    for j := 0 to |ids|
      invariant current.Dict?
      invariant OverridesFrom(current, proc, procSys, ids, j, toFloat) == OverridesFrom(sysDict, proc, procSys, ids, 0, toFloat)
    {
      var next := ApplyOverride(current, proc, ids[j], procSys[ids[j]], toFloat);
      if next.Err? {
        return next;
      }
      current := next.value;
    }
    r := Ok(current);
  }

  /** The loop over the process list: a process whose `systematics` lookup raises
      `KeyError` is skipped. */
  method ApplyOverrides(start: Value, dInput: Value, procs: seq<Key>, toFloat: FloatParser) returns (r: Result<Value>)
    requires start.Dict?
    ensures r == AllOverrides(start, dInput, procs, 0, toFloat)
  {
    var sysDict := start;
    for i := 0 to |procs|
      invariant sysDict.Dict?
      invariant AllOverrides(sysDict, dInput, procs, i, toFloat) == AllOverrides(start, dInput, procs, 0, toFloat)
    {
      var next := ApplyProcess(sysDict, dInput, procs[i], toFloat);
      if next.Err? {
        return next;
      }
      sysDict := next.value;
    }
    r := Ok(sysDict);
  }

  /** One pass of that loop: a process whose `systematics` lookup raises `KeyError`
      leaves the dict as it is. */
  method ApplyProcess(sysDict: Value, dInput: Value, proc: Key, toFloat: FloatParser) returns (r: Result<Value>)
    requires sysDict.Dict?
    ensures r == ProcessOverrides(sysDict, dInput, proc, toFloat)
  {
    var found := CatchKeyError(ProcSystematics(dInput, proc));
    if found.Err? {
      return Err(found.error);
    }
    if found.value.None? {
      return Ok(sysDict);
    }
    var procSys := found.value.value;
    if !procSys.Dict? {
      return Err(AttributeError("iteritems"));
    }
    r := ApplyProcessOverrides(sysDict, proc, procSys.entries, toFloat);
  }

  /** `_get_systematics_dict` without the store into `d_input`: the start, the
      overrides, and `to_dict()`. */
  method BuildSystematicsDict(dInput: Value, procs: seq<Key>, toFloat: FloatParser) returns (r: Result<Value>)
    ensures r == SystematicsDict(dInput, procs, toFloat)
  {
    var sysInputs := Index(dInput, SystematicsKey);
    if sysInputs.Err? {
      return Err(sysInputs.error);
    }
    var start := BuildStart(sysInputs.value, procs);
    if start.Err? {
      return Err(start.error);
    }
    var final := ApplyOverrides(start.value, dInput, procs, toFloat);
    if final.Err? {
      return Err(final.error);
    }
    r := Ok(ToDict(final.value));
  }
}
