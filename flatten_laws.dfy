/** Laws of the nested-dictionary toolkit: when a `unflatten` step succeeds and what
    it changes, why `unflatten` depends on the order of conflicting keys, how
    `unflatten` rebuilds any subset of a tree's flattened items (and so inverts
    `flatten`), and how `filter_flatten_dict` composes. */
module FlattenLaws {
  import opened Values
  import opened Glob
  import opened NestedDict

  predicate IsPrefix(a: FlatKey, b: FlatKey) {
    |a| <= |b| && b[..|a|] == a
  }

  /** Every proper prefix of `key` that exists in `root` leads to a mapping. */
  predicate Walkable(root: Value, key: FlatKey) {
    forall n | 1 <= n < |key| :: Lookup(root, key[..n]).None? || Lookup(root, key[..n]).value.Dict?
  }

  lemma PrefixOfCons(key: FlatKey, n: nat)
    requires 1 <= n <= |key|
    ensures key[..n][0] == key[0] && key[..n][1..] == key[1..][..n - 1]
  {
  }

  lemma LookupCons(root: Value, key: FlatKey, n: nat)
    requires root.Dict? && 1 <= n <= |key|
    ensures Lookup(root, key[..n]) ==
      (if key[0] in root.entries then Lookup(root.entries[key[0]], key[1..][..n - 1]) else None)
  {
    PrefixOfCons(key, n);
  }

  lemma LookupEmptyDict(p: FlatKey)
    requires p != []
    ensures Lookup(EmptyDict, p) == None
  {
  }

  /** A write fails exactly when the key tuple is empty (IndexError), the root is not a
      mapping, or a proper prefix of the key leads to a value that is not a mapping
      (TypeError). */
  lemma {:induction false} WriteOutcome(root: Value, key: FlatKey, value: Value)
    ensures Write(root, key, value).Ok? <==> key != [] && root.Dict? && Walkable(root, key)
    ensures key == [] ==> Write(root, key, value) == Err(IndexError)
    ensures key != [] && !(root.Dict? && Walkable(root, key)) ==> Write(root, key, value) == Err(TypeError)
    decreases |key|
  {
    if key != [] && root.Dict? && |key| > 1 {
      var k := key[0];
      var rest := key[1..];
      var child := if k in root.entries then root.entries[k] else EmptyDict;
      WriteOutcome(child, rest, value);
      forall n | 1 <= n < |key|
        ensures Lookup(root, key[..n]) == (if k in root.entries then Lookup(child, rest[..n - 1]) else None)
      {
        LookupCons(root, key, n);
      }
      if k in root.entries {
        assert key[..1] == [k] && rest[..0] == [];
        if Walkable(root, key) {
          forall m | 1 <= m < |rest|
            ensures Lookup(child, rest[..m]).None? || Lookup(child, rest[..m]).value.Dict?
          {
            assert Lookup(root, key[..m + 1]) == Lookup(child, rest[..m]);
          }
        }
        if child.Dict? && Walkable(child, rest) {
          forall n | 1 <= n < |key|
            ensures Lookup(root, key[..n]).None? || Lookup(root, key[..n]).value.Dict?
          {
            if n > 1 {
              assert Lookup(root, key[..n]) == Lookup(child, rest[..n - 1]);
            }
          }
        }
      } else {
        forall m | 1 <= m < |rest| ensures Lookup(child, rest[..m]).None? {
          LookupEmptyDict(rest[..m]);
        }
      }
    }
  }

  /** The value bound by a successful write, and the unchanged remainder of the tree:
      every path that is neither a prefix of the key nor an extension of it sees the
      old value. */
  lemma {:induction false} WriteEffect(root: Value, key: FlatKey, value: Value, p: FlatKey)
    requires Write(root, key, value).Ok?
    ensures Lookup(Write(root, key, value).value, key) == Some(value)
    ensures !IsPrefix(p, key) && !IsPrefix(key, p) ==>
      Lookup(Write(root, key, value).value, p) == Lookup(root, p)
    decreases |key|
  {
    var r := Write(root, key, value).value;
    var k := key[0];
    if |key| == 1 {
      assert key[1..] == [];
      if p != [] && p[0] != k {
        assert Lookup(r, p) == Lookup(root, p);
      }
    } else {
      var child := if k in root.entries then root.entries[k] else EmptyDict;
      var c := Write(child, key[1..], value).value;
      assert r.entries[k] == c;
      if p != [] && p[0] == k {
        WriteEffect(child, key[1..], value, p[1..]);
        if !IsPrefix(p, key) && !IsPrefix(key, p) {
          assert !IsPrefix(p[1..], key[1..]);
          assert !IsPrefix(key[1..], p[1..]);
          if k !in root.entries {
            if p[1..] != [] {
              LookupEmptyDict(p[1..]);
            }
          }
        }
      } else {
        WriteEffect(child, key[1..], value, key[1..]);
      }
    }
  }

  /** The mappings a successful write leaves along the key: a missing step gets a new
      plain `dict()` holding only the next key, an existing mapping keeps its kind and
      gains the next key. */
  lemma {:induction false} WritePrefixes(root: Value, key: FlatKey, value: Value, n: nat)
    requires Write(root, key, value).Ok?
    requires 1 <= n < |key|
    ensures Lookup(Write(root, key, value).value, key[..n]).Some?
    ensures Lookup(Write(root, key, value).value, key[..n]).value.Dict?
    ensures Lookup(root, key[..n]).None? ==>
      Lookup(Write(root, key, value).value, key[..n]).value == Dict(Lookup(Write(root, key, value).value, key[..n]).value.entries, false)
      && Lookup(Write(root, key, value).value, key[..n]).value.entries.Keys == {key[n]}
    ensures Lookup(root, key[..n]).Some? ==>
      Lookup(root, key[..n]).value.Dict?
      && Lookup(Write(root, key, value).value, key[..n]).value.nested == Lookup(root, key[..n]).value.nested
      && Lookup(Write(root, key, value).value, key[..n]).value.entries.Keys == Lookup(root, key[..n]).value.entries.Keys + {key[n]}
    decreases |key|
  {
    var r := Write(root, key, value).value;
    var k := key[0];
    var rest := key[1..];
    var child := if k in root.entries then root.entries[k] else EmptyDict;
    var c := Write(child, rest, value).value;
    WriteOutcome(root, key, value);
    LookupCons(root, key, n);
    LookupCons(r, key, n);
    if n == 1 {
      assert rest[..0] == [];
      if |rest| == 1 {
        assert c == Dict(child.entries[rest[0] := value], child.nested);
      } else {
        var cc := if rest[0] in child.entries then child.entries[rest[0]] else EmptyDict;
        assert c == Dict(child.entries[rest[0] := Write(cc, rest[1..], value).value], child.nested);
      }
    } else {
      WritePrefixes(child, rest, value, n - 1);
      if k !in root.entries {
        LookupEmptyDict(rest[..n - 1]);
      }
    }
  }

  /** Writing under a key whose proper prefix holds a value that is not a mapping
      fails: a longer key that comes after a shorter one is an error. */
  lemma ShorterKeyFirstFails(root: Value, key: FlatKey, value: Value, n: nat)
    requires 1 <= n < |key|
    requires Lookup(root, key[..n]).Some? && !Lookup(root, key[..n]).value.Dict?
    ensures Write(root, key, value) == Err(TypeError)
  {
    WriteOutcome(root, key, value);
  }

  /** Writing a value that is not a mapping under a shorter key removes everything
      below it: a shorter key that comes after a longer one silently wins. */
  lemma ShorterKeyLaterOverwrites(root: Value, short: FlatKey, value: Value, p: FlatKey)
    requires Write(root, short, value).Ok?
    requires !value.Dict?
    requires IsPrefix(short, p) && |short| < |p|
    ensures Lookup(Write(root, short, value).value, p) == None
  {
    var r := Write(root, short, value).value;
    WriteEffect(root, short, value, short);
    assert p == short + p[|short|..];
    LookupAppend(r, short, p[|short|..]);
  }

  /** The two orders of a conflicting pair of key tuples. */
  lemma UnflattenOrderMatters()
    ensures Unflatten([(["a", "b"], Int(1)), (["a"], Int(2))]) == Ok(Dict(map["a" := Int(2)], true))
    ensures Unflatten([(["a"], Int(2)), (["a", "b"], Int(1))]) == Err(TypeError)
  {
    var ab: FlatKey := ["a", "b"];
    var a: FlatKey := ["a"];
    var t1 := Dict(map["a" := Dict(map["b" := Int(1)], false)], true);
    assert Write(EmptyDict, ab[1..], Int(1)) == Ok(Dict(map["b" := Int(1)], false));
    assert Write(Dict(map[], true), ab, Int(1)) == Ok(t1);
    assert t1.entries["a" := Int(2)] == map["a" := Int(2)];
    assert Write(t1, a, Int(2)) == Ok(Dict(map["a" := Int(2)], true));
    var t2 := Dict(map["a" := Int(2)], true);
    assert Write(Dict(map[], true), a, Int(2)) == Ok(t2);
    assert Write(t2, ab, Int(1)) == Err(TypeError);
  }

  // ---------------------------------------------------------------------------
  // unflatten rebuilds any subset of a tree's flattened items
  // ---------------------------------------------------------------------------

  /** The key tuples of `S` that start with `k`, without it. */
  function Under(S: set<FlatKey>, k: Key): set<FlatKey> {
    set p | p in S && p != [] && p[0] == k :: p[1..]
  }

  /** The part of the tree `d` that holds exactly the leaves at the paths in `S`, with
      plain `dict`s below the root. */
  function Prune(d: Value, S: set<FlatKey>, nested: bool): (r: Value)
    requires d.Dict?
    ensures r.Dict? && r.nested == nested
    decreases d, 0
  {
    Dict(map k | k in d.entries && Under(S, k) != {} :: PruneChild(d.entries[k], Under(S, k)), nested)
  }

  function PruneChild(c: Value, U: set<FlatKey>): Value
    decreases c, 1
  {
    if c.Dict? then Prune(c, U, false) else c
  }

  lemma PruneNothing(d: Value, f: bool)
    requires d.Dict?
    ensures Prune(d, {}, f) == Dict(map[], f)
  {
    assert forall k :: Under({}, k) == {};
  }

  lemma UnderIsChildLeaves(d: Value, S: set<FlatKey>, k: Key)
    requires d.Dict? && S <= LeafPaths(d) && k in d.entries
    ensures Under(S, k) <= ChildPaths(d.entries[k])
  {
    forall q | q in Under(S, k) ensures q in ChildPaths(d.entries[k]) {
      var p :| p in S && p != [] && p[0] == k && q == p[1..];
      assert p == [k] + q;
      var k', q' :| k' in d.entries && q' in ChildPaths(d.entries[k']) && [k'] + q' == p;
      assert k' == k && q' == q;
    }
  }

  lemma UnderAdd(S: set<FlatKey>, p: FlatKey, k: Key)
    requires p != []
    ensures Under(S + {p}, k) == if p[0] == k then Under(S, k) + {p[1..]} else Under(S, k)
  {
  }

  /** Adding a path starting with a key of `d` changes the pruned tree under that key only. */
  lemma PruneAdd(d: Value, S: set<FlatKey>, p: FlatKey, f: bool)
    requires d.Dict? && p != [] && p[0] in d.entries
    ensures Prune(d, S + {p}, f).entries
      == Prune(d, S, f).entries[p[0] := PruneChild(d.entries[p[0]], Under(S, p[0]) + {p[1..]})]
  {
    forall j ensures Under(S + {p}, j) == if j == p[0] then Under(S, j) + {p[1..]} else Under(S, j) {
      UnderAdd(S, p, j);
    }
  }

  /** The path `[k] + q` is in `S` exactly when `q` is in `Under(S, k)`. */
  lemma InUnder(S: set<FlatKey>, k: Key, q: FlatKey)
    ensures [k] + q in S <==> q in Under(S, k)
  {
    if q in Under(S, k) {
      var p' :| p' in S && p' != [] && p'[0] == k && q == p'[1..];
      assert p' == [k] + q;
    }
    if [k] + q in S {
      assert ([k] + q)[1..] == q;
    }
  }

  /** Writing one more leaf of `d` into the pruned tree extends the pruning by that leaf. */
  lemma {:induction false} PruneStep(d: Value, S: set<FlatKey>, p: FlatKey, f: bool)
    requires d.Dict? && S <= LeafPaths(d) && p in LeafPaths(d) && p !in S
    ensures Lookup(d, p).Some?
    ensures Write(Prune(d, S, f), p, Lookup(d, p).value) == Ok(Prune(d, S + {p}, f))
    decreases d
  {
    LeafPathsAreLeaves(d, p);
    var k := p[0];
    var q := p[1..];
    var c := d.entries[k];
    var U := Under(S, k);
    assert Lookup(d, p) == Lookup(c, q);
    PruneAdd(d, S, p, f);
    if c.Dict? {
      PruneStepInner(d, S, p, f);
    } else {
      assert q == [];
    }
  }

  lemma {:induction false} PruneStepInner(d: Value, S: set<FlatKey>, p: FlatKey, f: bool)
    requires d.Dict? && S <= LeafPaths(d) && p in LeafPaths(d) && p !in S
    requires p != [] && p[0] in d.entries && d.entries[p[0]].Dict?
    ensures |p| > 1 && Lookup(d, p) == Lookup(d.entries[p[0]], p[1..])
    ensures Lookup(d, p).Some?
    ensures Write(Prune(d, S, f), p, Lookup(d, p).value).Ok?
    ensures Write(Prune(d, S, f), p, Lookup(d, p).value).value.entries
      == Prune(d, S, f).entries[p[0] := Prune(d.entries[p[0]], Under(S, p[0]) + {p[1..]}, false)]
    decreases d, 0
  {
    LeafPathsAreLeaves(d, p);
    var k := p[0];
    var q := p[1..];
    var c := d.entries[k];
    var U := Under(S, k);
    var P := Prune(d, S, f);
    assert p == [k] + q;
    assert q != [];
    LeafPathsAreLeaves(c, q);
    UnderIsChildLeaves(d, S, k);
    InUnder(S, k, q);
    var child := if k in P.entries then P.entries[k] else EmptyDict;
    if k in P.entries {
      assert P.entries[k] == PruneChild(c, U);
    } else {
      assert U == {};
      PruneNothing(c, false);
    }
    assert child == Prune(c, U, false);
    PruneStep(c, U, q, false);
  }

  /** The items of a flat map listed once each, in some order. */
  predicate Enumerates(items: seq<(FlatKey, Value)>, flat: Flat) {
    (forall i, j :: 0 <= i < j < |items| ==> items[i].0 != items[j].0)
    && (forall i :: 0 <= i < |items| ==> items[i].0 in flat && flat[items[i].0] == items[i].1)
    && (forall key :: key in flat ==> exists i :: 0 <= i < |items| && items[i].0 == key)
  }

  /** The items of a flat mapping, one per key, in the order a loop over the mapping
      visits them. */
  method ItemsOf(f: Flat) returns (items: seq<(FlatKey, Value)>)
    ensures Enumerates(items, f)
  {
    items := [];
    var todo := f.Keys;
    while todo != {}
      invariant todo <= f.Keys
      invariant forall i, j :: 0 <= i < j < |items| ==> items[i].0 != items[j].0
      invariant forall i :: 0 <= i < |items| ==> items[i].0 in f.Keys - todo && f[items[i].0] == items[i].1
      invariant forall key :: key in f.Keys && key !in todo ==> exists i :: 0 <= i < |items| && items[i].0 == key
      decreases |todo|
    {
      var key :| key in todo;
      ghost var prev := items;
      items := items + [(key, f[key])];
      forall k | k in f.Keys && k !in todo - {key} ensures exists i :: 0 <= i < |items| && items[i].0 == k {
        if k == key {
          assert items[|prev|].0 == k;
        } else {
          var i :| 0 <= i < |prev| && prev[i].0 == k;
          assert items[i].0 == k;
        }
      }
      todo := todo - {key};
    }
  }

  function KeysOf(items: seq<(FlatKey, Value)>): set<FlatKey> {
    set i | 0 <= i < |items| :: items[i].0
  }

  lemma {:induction false} UnflattenLeaves(d: Value, S: set<FlatKey>, items: seq<(FlatKey, Value)>, f: bool)
    requires d.Dict? && S <= LeafPaths(d)
    requires forall i, j :: 0 <= i < j < |items| ==> items[i].0 != items[j].0
    requires forall i :: 0 <= i < |items| ==>
      items[i].0 in LeafPaths(d) && items[i].0 !in S && Lookup(d, items[i].0) == Some(items[i].1)
    ensures UnflattenFrom(Prune(d, S, f), items) == Ok(Prune(d, S + KeysOf(items), f))
    decreases |items|
  {
    if items == [] {
      assert KeysOf(items) == {};
      assert S + {} == S;
    } else {
      var p := items[0].0;
      var rest := items[1..];
      var before := Prune(d, S, f);
      var after := Prune(d, S + {p}, f);
      assert UnflattenFrom(before, items) == UnflattenFrom(after, rest) by {
        PruneStep(d, S, p, f);
      }
      assert UnflattenFrom(after, rest) == Ok(Prune(d, S + {p} + KeysOf(rest), f)) by {
        forall i, j | 0 <= i < j < |rest| ensures rest[i].0 != rest[j].0 {
          assert rest[i] == items[i + 1] && rest[j] == items[j + 1];
        }
        forall i | 0 <= i < |rest|
          ensures rest[i].0 in LeafPaths(d) && rest[i].0 !in S + {p} && Lookup(d, rest[i].0) == Some(rest[i].1)
        {
          assert rest[i] == items[i + 1];
        }
        UnflattenLeaves(d, S + {p}, rest, f);
      }
      KeysOfCons(items);
      assert S + {p} + KeysOf(rest) == S + KeysOf(items);
    }
  }

  lemma KeysOfCons(items: seq<(FlatKey, Value)>)
    requires items != []
    ensures KeysOf(items) == {items[0].0} + KeysOf(items[1..])
  {
    forall x | x in KeysOf(items) ensures x == items[0].0 || x in KeysOf(items[1..]) {
      var i :| 0 <= i < |items| && items[i].0 == x;
      if i > 0 { assert items[1..][i - 1].0 == x; }
    }
    forall x | x in KeysOf(items[1..]) ensures x in KeysOf(items) {
      var i :| 0 <= i < |items| - 1 && items[1..][i].0 == x;
      assert items[i + 1].0 == x;
    }
  }

  lemma KeysOfSnoc(items: seq<(FlatKey, Value)>, n: nat)
    requires n < |items|
    ensures KeysOf(items[..n + 1]) == KeysOf(items[..n]) + {items[n].0}
  {
    var a, b := items[..n], items[..n + 1];
    forall k | k in KeysOf(b) ensures k in KeysOf(a) + {items[n].0} {
      var i :| 0 <= i < |b| && b[i].0 == k;
      if i < n { assert a[i].0 == k; }
    }
    forall k | k in KeysOf(a) ensures k in KeysOf(b) {
      var i :| 0 <= i < |a| && a[i].0 == k;
      assert b[i].0 == k;
    }
  }

  lemma EnumeratedKeys(items: seq<(FlatKey, Value)>, f: Flat)
    requires Enumerates(items, f)
    ensures KeysOf(items[..|items|]) == f.Keys && KeysOf(items) == f.Keys
  {
    assert items[..|items|] == items;
    forall k | k in f ensures k in KeysOf(items) {
      var i :| 0 <= i < |items| && items[i].0 == k;
    }
  }

  /** `unflatten` of any listing of some of the flattened items of `d` succeeds, in
      every order, and yields the part of `d` holding exactly those leaves. */
  lemma UnflattenOfFlatSubset(d: Value, sub: Flat, items: seq<(FlatKey, Value)>)
    requires d.Dict?
    requires forall p | p in sub :: p in FlatOf(d) && sub[p] == FlatOf(d)[p]
    requires Enumerates(items, sub)
    ensures Unflatten(items) == Ok(Prune(d, sub.Keys, true))
  {
    assert Unflatten(items) == UnflattenFrom(Prune(d, {}, true), items) by {
      PruneNothing(d, true);
    }
    assert UnflattenFrom(Prune(d, {}, true), items) == Ok(Prune(d, {} + KeysOf(items), true)) by {
      forall i | 0 <= i < |items|
        ensures items[i].0 in LeafPaths(d) && Lookup(d, items[i].0) == Some(items[i].1)
      {
        LeafPathsAreLeaves(d, items[i].0);
      }
      UnflattenLeaves(d, {}, items, true);
    }
    EnumeratedKeys(items, sub);
    assert {} + KeysOf(items) == sub.Keys;
  }

  /** `d` has no empty mapping below its root. */
  predicate NoEmptySubDicts(d: Value)
    decreases d
  {
    d.Dict? ==> forall k | k in d.entries ::
      d.entries[k].Dict? ==> d.entries[k].entries != map[] && NoEmptySubDicts(d.entries[k])
  }

  lemma LeafPathsNonEmpty(d: Value)
    requires d.Dict? && d.entries != map[] && NoEmptySubDicts(d)
    ensures LeafPaths(d) != {}
    decreases d
  {
    var k :| k in d.entries;
    var c := d.entries[k];
    if c.Dict? {
      LeafPathsNonEmpty(c);
      var q :| q in LeafPaths(c);
      assert [k] + q in LeafPaths(d);
    } else {
      assert [k] + [] in LeafPaths(d);
    }
  }

  lemma UnderLeafPaths(d: Value, k: Key)
    requires d.Dict? && k in d.entries
    ensures Under(LeafPaths(d), k) == ChildPaths(d.entries[k])
  {
    UnderIsChildLeaves(d, LeafPaths(d), k);
    forall q | q in ChildPaths(d.entries[k]) ensures q in Under(LeafPaths(d), k) {
      var p := [k] + q;
      assert p in LeafPaths(d);
      assert p[1..] == q;
    }
  }

  /** Pruning to all the leaves of a tree without empty sub-mappings rebuilds the tree,
      with plain `dict`s below the root. */
  lemma {:induction false} PruneAll(d: Value, f: bool)
    requires d.Dict? && NoEmptySubDicts(d)
    ensures Prune(d, LeafPaths(d), f) == Dict(Plain(d).entries, f)
    decreases d
  {
    var P := Prune(d, LeafPaths(d), f);
    forall k | k in d.entries
      ensures Under(LeafPaths(d), k) != {}
      ensures PruneChild(d.entries[k], Under(LeafPaths(d), k)) == Plain(d.entries[k])
    {
      UnderLeafPaths(d, k);
      var c := d.entries[k];
      if c.Dict? {
        LeafPathsNonEmpty(c);
        PruneAll(c, false);
      }
    }
    assert P.entries == Plain(d).entries;
  }

  /** Round trip: for a tree without empty sub-mappings, `unflatten` of the items of
      `flatten`, in any order, followed by `to_dict`, gives the tree back as plain
      `dict`s. */
  lemma UnflattenFlattenRoundTrip(d: Value, items: seq<(FlatKey, Value)>)
    requires d.Dict? && NoEmptySubDicts(d)
    requires Enumerates(items, FlatOf(d))
    ensures Unflatten(items).Ok? && Unflatten(items).value.Dict?
    ensures ToDict(Unflatten(items).value) == Plain(d)
  {
    UnflattenOfFlatSubset(d, FlatOf(d), items);
    FlatKeysAreLeafPaths(d);
    PruneAll(d, true);
    ToDictOfPlainEntries(d);
  }

  lemma FlatKeysAreLeafPaths(d: Value)
    requires d.Dict?
    ensures FlatOf(d).Keys == LeafPaths(d)
  {
    forall p ensures p in FlatOf(d) <==> p in LeafPaths(d) {
      LeafPathsAreLeaves(d, p);
    }
  }

  lemma ToDictOfPlainEntries(d: Value)
    requires d.Dict?
    ensures ToDict(Dict(Plain(d).entries, true)) == Plain(d)
  {
    var t := Dict(Plain(d).entries, true);
    PlainIsPlain(d);
    forall k | k in t.entries ensures !(t.entries[k].Dict? && t.entries[k].nested) {
      assert IsPlain(Plain(d).entries[k]);
    }
    ToDictOfShallow(t);
  }

  /** The pruned tree flattens to exactly the chosen items. */
  lemma {:induction false} PruneLookup(d: Value, S: set<FlatKey>, f: bool, p: FlatKey)
    requires d.Dict? && S <= LeafPaths(d)
    ensures IsLeafPath(Prune(d, S, f), p) <==> p in S
    ensures p in S ==> Lookup(Prune(d, S, f), p) == Lookup(d, p)
    decreases d
  {
    var P := Prune(d, S, f);
    if p != [] {
      var k := p[0];
      var q := p[1..];
      assert p == [k] + q;
      if k in P.entries {
        var c := d.entries[k];
        var U := Under(S, k);
        UnderIsChildLeaves(d, S, k);
        assert Lookup(P, p) == Lookup(PruneChild(c, U), q);
        assert Lookup(d, p) == Lookup(c, q);
        InUnder(S, k, q);
        if c.Dict? {
          if q != [] {
            PruneLookup(c, U, false, q);
          } else {
            assert q !in LeafPaths(c) by { LeafPathsAreLeaves(c, q); }
          }
        } else {
          assert U <= {[]};
          if q != [] {
            assert Lookup(c, q) == None;
          }
        }
      } else {
        InUnder(S, k, q);
        if p in S {
          LeafPathsAreLeaves(d, p);
        }
      }
    } else {
      assert p !in LeafPaths(d) by { LeafPathsAreLeaves(d, p); }
    }
  }

  lemma PruneFlat(d: Value, S: set<FlatKey>, f: bool)
    requires d.Dict? && S <= LeafPaths(d)
    ensures FlatOf(Prune(d, S, f)) == map p | p in S :: FlatOf(d)[p]
  {
    forall p ensures p in S ==> p in FlatOf(d) {
      LeafPathsAreLeaves(d, p);
    }
    forall p ensures p in FlatOf(Prune(d, S, f)) <==> p in S {
      PruneLookup(d, S, f, p);
    }
    forall p | p in S ensures FlatOf(Prune(d, S, f))[p] == FlatOf(d)[p] {
      PruneLookup(d, S, f, p);
    }
  }

  // ---------------------------------------------------------------------------
  // filter_flatten_dict
  // ---------------------------------------------------------------------------

  /** Without tags, every entry is kept. */
  lemma FilterNoTags(f: Flat)
    ensures FilterFlat(f, []) == Ok(f)
  {
    assert ValidTags([]);
    assert forall key :: Kept(key, []);
    assert (map key | key in f && Kept(key, []) :: f[key]) == f;
  }

  /** The result is a subset of the input, with the values unchanged. */
  lemma FilterIsSubset(f: Flat, tags: seq<string>)
    requires FilterFlat(f, tags).Ok?
    ensures FilterFlat(f, tags).value.Keys <= f.Keys
    ensures forall key | key in FilterFlat(f, tags).value :: FilterFlat(f, tags).value[key] == f[key]
  {
  }

  lemma KeptAppend(key: FlatKey, t1: seq<string>, t2: seq<string>)
    requires ValidTags(t1 + t2)
    ensures ValidTags(t1) && ValidTags(t2)
    ensures Kept(key, t1 + t2) <==> Kept(key, t1) && Kept(key, t2)
  {
    assert forall j :: 0 <= j < |t1| ==> (t1 + t2)[j] == t1[j];
    assert forall j :: 0 <= j < |t2| ==> (t1 + t2)[|t1| + j] == t2[j];
    if key != [] {
      if KeptBy(key, t1 + t2) {
        forall j | 0 <= j < |t2| ensures TagFound(key, t2[j]) {
          assert TagFound(key, (t1 + t2)[|t1| + j]);
        }
      }
      if KeptBy(key, t1) && KeptBy(key, t2) {
        forall j | 0 <= j < |t1 + t2| ensures TagFound(key, (t1 + t2)[j]) {
          if j >= |t1| { assert TagFound(key, t2[j - |t1|]); }
        }
      }
    }
  }

  /** Filtering by two lists of tags one after the other is filtering by both at once:
      the tags are and-ed. */
  lemma FilterComposes(f: Flat, t1: seq<string>, t2: seq<string>)
    requires ValidTags(t1 + t2)
    ensures FilterFlat(f, t1 + t2).Ok? && FilterFlat(f, t1).Ok?
    ensures FilterFlat(FilterFlat(f, t1).value, t2) == FilterFlat(f, t1 + t2)
  {
    forall key ensures Kept(key, t1 + t2) <==> Kept(key, t1) && Kept(key, t2) {
      KeptAppend(key, t1, t2);
    }
    KeptAppend([], t1, t2);
    var g := FilterFlat(f, t1).value;
    assert g == map key | key in f && Kept(key, t1) :: f[key];
    assert FilterFlat(g, t2) == Ok(map key | key in g && Kept(key, t2) :: g[key]);
    assert (map key | key in g && Kept(key, t2) :: g[key]) == (map key | key in f && Kept(key, t1 + t2) :: f[key]);
  }

  /** Matching is not positional: each tag may be found at any item of the key tuple. */
  lemma FilterNotPositional(v: Value)
    ensures FilterFlat(map[["a", "b"] := v], ["b", "a"]) == Ok(map[["a", "b"] := v])
  {
    var key: FlatKey := ["a", "b"];
    var tags := ["b", "a"];
    var f := map[key := v];
    assert IsLiteralPattern("a") && IsLiteralPattern("b");
    LiteralPatternMatchesItself("a", "a");
    LiteralPatternMatchesItself("b", "b");
    assert ValidTags(tags);
    assert TagFound(key, "b") by {
      assert Matches(Compile("b").value, key[1]);
    }
    assert TagFound(key, "a") by {
      assert Matches(Compile("a").value, key[0]);
    }
    assert KeptBy(key, tags);
    assert (map k | k in f && Kept(k, tags) :: f[k]) == f;
  }

  // ---------------------------------------------------------------------------
  // _recursive_update
  // ---------------------------------------------------------------------------

  /** Updating a tree of `nested_dict`s with another one yields a tree of `nested_dict`s. */
  lemma {:induction false} RecursiveUpdateAllNested(nd: Value, other: Value)
    requires nd.Dict? && AllNested(nd) && other.Dict? && AllNested(other)
    ensures AllNested(RecursiveUpdate(nd, other))
    decreases other
  {
    var r := RecursiveUpdate(nd, other);
    forall k | k in r.entries ensures AllNested(r.entries[k]) {
      if k in other.entries {
        var value := other.entries[k];
        assert AllNested(value);
        assert r.entries[k] == UpdateChild(Get(nd, k), value);
        if value.Dict? {
          if k in nd.entries {
            var m := nd.entries[k];
            assert AllNested(m);
            if m.Dict? {
              RecursiveUpdateAllNested(m, value);
            }
          } else {
            RecursiveUpdateAllNested(Dict(map[], true), value);
          }
        }
      } else {
        assert AllNested(nd.entries[k]);
      }
    }
  }

  /** The deep merge looks only at the shape of its inputs. */
  lemma {:induction false} DeepMergeOfNestedFromDict(a: Value, b: Value)
    requires a.Dict? && b.Dict?
    ensures DeepMerge(NestedFromDict(a), NestedFromDict(b)) == DeepMerge(a, b)
    decreases b
  {
    var l := DeepMerge(NestedFromDict(a), NestedFromDict(b));
    var r := DeepMerge(a, b);
    forall k | k in r.entries ensures l.entries[k] == r.entries[k] {
      if k !in b.entries {
        PlainOfNestedFromDict(a.entries[k]);
      } else if k in a.entries && a.entries[k].Dict? && b.entries[k].Dict? {
        DeepMergeOfNestedFromDict(a.entries[k], b.entries[k]);
      } else {
        PlainOfNestedFromDict(b.entries[k]);
      }
    }
    assert l.entries == r.entries;
  }

  /** Under a plain `dict` child the update is shallow: each key of the incoming mapping
      replaces the child's value whole, even when both are mappings, and the child's
      other keys stay. */
  lemma PlainChildUpdatedShallowly(nd: Value, other: Value, k: Key)
    requires nd.Dict? && nd.nested && other.Dict?
    requires k in nd.entries && nd.entries[k].Dict? && !nd.entries[k].nested
    requires k in other.entries && other.entries[k].Dict?
    ensures RecursiveUpdate(nd, other).entries[k]
      == Dict(nd.entries[k].entries + other.entries[k].entries, false)
  {
  }

  /** The contrast in one example: below a `nested_dict` child both inner keys survive,
      below a plain `dict` child the incoming inner mapping replaces the old one. */
  lemma ShallowVersusDeepExample()
    ensures RecursiveUpdate(
        Dict(map["b" := Dict(map["c" := Dict(map["x" := Int(1)], true)], true)], true),
        Dict(map["b" := Dict(map["c" := Dict(map["y" := Int(2)], false)], false)], false)
      ).entries["b"].entries["c"].entries.Keys == {"x", "y"}
    ensures RecursiveUpdate(
        Dict(map["b" := Dict(map["c" := Dict(map["x" := Int(1)], false)], false)], true),
        Dict(map["b" := Dict(map["c" := Dict(map["y" := Int(2)], false)], false)], false)
      ).entries["b"].entries["c"] == Dict(map["y" := Int(2)], false)
  {
    var deep := RecursiveUpdate(
        Dict(map["b" := Dict(map["c" := Dict(map["x" := Int(1)], true)], true)], true),
        Dict(map["b" := Dict(map["c" := Dict(map["y" := Int(2)], false)], false)], false));
    assert deep.entries["b"] == RecursiveUpdate(Dict(map["c" := Dict(map["x" := Int(1)], true)], true),
      Dict(map["c" := Dict(map["y" := Int(2)], false)], false));
    var shallow := Dict(map["c" := Dict(map["x" := Int(1)], false)], false);
    var incoming := Dict(map["c" := Dict(map["y" := Int(2)], false)], false);
    assert (shallow.entries + incoming.entries)["c"] == Dict(map["y" := Int(2)], false);
  }
}
