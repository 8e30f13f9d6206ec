/** The cascade goes by dotted names: when they lead back to the orphans, and what happens when not. */
module CascadeNames {
  import opened Wrappers
  import opened Collections
  import opened MyKey
  import opened SessionPaths
  import opened ProviderCascade

  predicate HoldsOrphan(v: Value, id: string) {
    v.Table? && (IsOrphan(v.t, id) || exists k | k in v.t :: HoldsOrphan(v.t[k], id))
  }

  /** No key on the way from `v` down to an orphan has a dot. */
  predicate Addressable(v: Value, id: string)
    requires v.Table?
    decreases v, 1
  {
    IsOrphan(v.t, id) || AddressableBelow(v, v.t.Keys, id)
  }

  predicate AddressableBelow(v: Value, keys: set<string>, id: string)
    requires v.Table?
    decreases v, 0
  {
    forall k | k in keys && k in v.t && HoldsOrphan(v.t[k], id) :: '.' !in k && Addressable(v.t[k], id)
  }

  /** An entry with an empty name holds no orphans, unless it is one. */
  predicate EmptyLeadsNowhere(raw: TableMap, id: string) {
    "" in EntryKeys(raw) && HoldsOrphan(raw[""], id) ==> IsOrphan(raw[""].t, id)
  }

  /** The dotted name of every orphan of the configuration leads back to it. */
  predicate AddressableOrphans(raw: TableMap, id: string) {
    EmptyLeadsNowhere(raw, id) && AddressableBelow(Table(raw), EntryKeys(raw), id)
  }

  lemma {:induction false} NothingHeld(v: Value, keys: seq<string>, prefix: string, id: string, order: Order)
    requires v.Table? && forall k | k in keys && k in v.t :: !HoldsOrphan(v.t[k], id)
    ensures OrphanNames(v, keys, prefix, id, order) == [] && PathsBelow(v, keys, id, order) == []
    decreases v, |keys|
  {
    if keys != [] {
      var key := keys[0];
      NothingHeld(v, keys[1..], prefix, id, order);
      if key in v.t && v.t[key].Table? {
        var sub, full := v.t[key], FullName(prefix, key);
        NothingHeld(sub, order(WalkKeys(sub.t, full)), full, id, order);
        NothingHeld(sub, order(TableKeys(sub.t)), full, id, order);
      }
    }
  }

  function Named(prefix: string, paths: seq<Path>): (names: seq<string>)
    ensures |names| == |paths| && forall i | 0 <= i < |names| :: names[i] == FullName(prefix, Join(paths[i]))
  {
    seq(|paths|, i requires 0 <= i < |paths| => FullName(prefix, Join(paths[i])))
  }

  lemma NamedUnder(prefix: string, key: string, paths: seq<Path>)
    requires FullName(prefix, key) != "" && forall p | p in paths :: p != []
    ensures Named(prefix, Under(key, paths)) == Named(FullName(prefix, key), paths)
  {
    forall i | 0 <= i < |paths|
      ensures FullName(prefix, Join([key] + paths[i])) == FullName(FullName(prefix, key), Join(paths[i]))
    {
      assert paths[i] in paths && ([key] + paths[i])[1..] == paths[i];
      assert Join([key] + paths[i]) == key + "." + Join(paths[i]);
      if prefix != "" {
        assert prefix + "." + (key + "." + Join(paths[i])) == prefix + "." + key + "." + Join(paths[i]);
      }
    }
  }

  /** The names collected are those of the orphans' paths. */
  lemma {:induction false} NamesArePaths(v: Value, keys: seq<string>, prefix: string, id: string, order: Order)
    requires IsWalk(order) && v.Table?
    requires forall k | k in keys && k in v.t && HoldsOrphan(v.t[k], id) ::
      FullName(prefix, k) == "" ==> IsOrphan(v.t[k].t, id)
    ensures OrphanNames(v, keys, prefix, id, order) == Named(prefix, PathsBelow(v, keys, id, order))
    decreases v, 0, |keys|
  {
    if keys != [] {
      NamesArePaths(v, keys[1..], prefix, id, order);
      if keys[0] in v.t && v.t[keys[0]].Table? {
        NameIsPath(v.t[keys[0]], keys[0], prefix, id, order);
      }
    }
  }

  lemma {:induction false} NameIsPath(sub: Value, key: string, prefix: string, id: string, order: Order)
    requires IsWalk(order) && sub.Table?
    requires HoldsOrphan(sub, id) ==> (FullName(prefix, key) == "" ==> IsOrphan(sub.t, id))
    ensures OrphansAt(sub, FullName(prefix, key), id, order) == Named(prefix, Under(key, PathsOf(sub, id, order)))
    decreases sub, 1
  {
    var full, keys := FullName(prefix, key), order(TableKeys(sub.t));
    if !HoldsOrphan(sub, id) {
      NothingHeld(sub, order(WalkKeys(sub.t, full)), full, id, order);
      NothingHeld(sub, keys, full, id, order);
    } else if IsOrphan(sub.t, id) {
      assert Under(key, [[]])[0] == [key] + [] == [key];
    } else {
      assert Walks(keys, TableKeys(sub.t));
      NamesArePaths(sub, keys, full, id, order);
      PathsArePending(sub, keys, id, order);
      NamedUnder(prefix, key, PathsBelow(sub, keys, id, order));
    }
  }

  predicate DotFreePaths(paths: seq<Path>) {
    forall p | p in paths :: DotFree(p)
  }

  lemma {:induction false} HeldIsListed(v: Value, keys: seq<string>, id: string, order: Order)
    requires IsWalk(order) && v.Table? && exists k :: k in keys && k in v.t && HoldsOrphan(v.t[k], id)
    ensures PathsBelow(v, keys, id, order) != []
    decreases v, |keys|
  {
    var key := keys[0];
    if key in v.t && HoldsOrphan(v.t[key], id) {
      var sub := v.t[key];
      if !IsOrphan(sub.t, id) {
        var k :| k in sub.t && HoldsOrphan(sub.t[k], id);
        assert Walks(order(TableKeys(sub.t)), TableKeys(sub.t));
        assert k in TableKeys(sub.t) && k in order(TableKeys(sub.t));
        HeldIsListed(sub, order(TableKeys(sub.t)), id, order);
      }
    } else {
      HeldIsListed(v, keys[1..], id, order);
    }
  }

  lemma DotFreeUnder(key: string, paths: seq<Path>)
    ensures DotFreePaths(Under(key, paths)) <==> paths == [] || ('.' !in key && DotFreePaths(paths))
  {
    if paths != [] {
      assert Under(key, paths)[0][0] == key;
      assert Under(key, paths)[0] in Under(key, paths);
    }
    forall i | 0 <= i < |paths| ensures DotFree([key] + paths[i]) <==> '.' !in key && DotFree(paths[i]) {
      assert forall k :: k in [key] + paths[i] <==> k == key || k in paths[i];
    }
    forall p | p in paths ensures [key] + p in Under(key, paths) {
      var i :| 0 <= i < |paths| && paths[i] == p;
      assert Under(key, paths)[i] == [key] + p;
    }
  }

  lemma DotFreeAppend(a: seq<Path>, b: seq<Path>)
    ensures DotFreePaths(a + b) <==> DotFreePaths(a) && DotFreePaths(b)
  {
    assert forall p :: p in a + b <==> p in a || p in b;
  }

  lemma AddressableWith(v: Value, keys: seq<string>, id: string)
    requires v.Table? && keys != []
    ensures AddressableBelow(v, (set k | k in keys), id)
       <==> && AddressableBelow(v, (set k | k in keys[1..]), id)
            && (keys[0] in v.t && HoldsOrphan(v.t[keys[0]], id) ==>
                  '.' !in keys[0] && Addressable(v.t[keys[0]], id))
  {
    assert (set k | k in keys) == {keys[0]} + (set k | k in keys[1..]);
  }

  lemma AddressableTables(v: Value, id: string)
    requires v.Table?
    ensures AddressableBelow(v, v.t.Keys, id) <==> AddressableBelow(v, TableKeys(v.t), id)
  {
  }

  /** The paths of the orphans have no dots exactly if the orphans are addressable. */
  lemma {:induction false} DotFreeIff(v: Value, keys: seq<string>, id: string, order: Order)
    requires IsWalk(order) && v.Table?
    ensures DotFreePaths(PathsBelow(v, keys, id, order)) <==> AddressableBelow(v, (set k | k in keys), id)
    decreases v, 0, |keys|
  {
    if keys != [] {
      var key := keys[0];
      DotFreeIff(v, keys[1..], id, order);
      AddressableWith(v, keys, id);
      if key in v.t && v.t[key].Table? {
        var under := Under(key, PathsOf(v.t[key], id, order));
        DotFreeUnderIff(v.t[key], key, id, order);
        DotFreeAppend(under, PathsBelow(v, keys[1..], id, order));
      }
    }
  }

  lemma {:induction false} DotFreeUnderIff(sub: Value, key: string, id: string, order: Order)
    requires IsWalk(order) && sub.Table?
    ensures DotFreePaths(Under(key, PathsOf(sub, id, order)))
       <==> (HoldsOrphan(sub, id) ==> '.' !in key && Addressable(sub, id))
    decreases sub, 1
  {
    DotFreeUnder(key, PathsOf(sub, id, order));
    var walk := order(TableKeys(sub.t));
    if !HoldsOrphan(sub, id) {
      NothingHeld(sub, walk, "", id, order);
    } else if !IsOrphan(sub.t, id) {
      assert Walks(walk, TableKeys(sub.t));
      assert (set k | k in walk) == TableKeys(sub.t);
      DotFreeIff(sub, walk, id, order);
      AddressableTables(sub, id);
      var k :| k in sub.t && HoldsOrphan(sub.t[k], id);
      assert k in TableKeys(sub.t) && k in walk;
      HeldIsListed(sub, walk, id, order);
    }
  }

  lemma {:induction false} RemoveNamesIsPaths(t: TableMap, paths: seq<Path>)
    requires DotFreePaths(paths) && forall p | p in paths :: p != []
    ensures RemoveNames(t, Named("", paths)) == RemovePaths(t, paths)
    decreases paths
  {
    if paths != [] {
      assert paths[0] in paths;
      SplitJoin(paths[0]);
      assert forall p | p in paths[1..] :: p in paths;
      RemoveNamesIsPaths(RemovePath(t, paths[0]), paths[1..]);
      assert Named("", paths)[1..] == Named("", paths[1..]);
    }
  }

  lemma PathsOfNames(raw: TableMap, id: string, order: Order) returns (paths: seq<Path>)
    requires IsWalk(order) && EmptyLeadsNowhere(raw, id)
    ensures paths == PathsBelow(Table(raw), order(EntryKeys(raw)), id, order) && Pending(raw, paths)
    ensures OrphanNames(Table(raw), order(EntryKeys(raw)), "", id, order) == Named("", paths)
    ensures DotFreePaths(paths) <==> AddressableBelow(Table(raw), EntryKeys(raw), id)
  {
    var keys := order(EntryKeys(raw));
    assert Walks(keys, EntryKeys(raw)) && (set k | k in keys) == EntryKeys(raw);
    paths := PathsBelow(Table(raw), keys, id, order);
    PathsArePending(Table(raw), keys, id, order);
    NamesArePaths(Table(raw), keys, "", id, order);
    DotFreeIff(Table(raw), keys, id, order);
  }

  /** If the names lead back, the cascade removes exactly the orphans, and the parents that empties. */
  lemma CascadePrunes(raw: TableMap, id: string, order: Order)
    requires IsWalk(order) && AddressableOrphans(raw, id)
    ensures RemoveNames(raw, OrphanNames(Table(raw), order(EntryKeys(raw)), "", id, order))
         == PruneTable(Table(raw), EntryKeys(raw), id)
  {
    var paths := PathsOfNames(raw, id, order);
    forall p | p in paths ensures p != [] {
      var i :| 0 <= i < |paths| && paths[i] == p;
      assert Resolves(raw, paths[i]);
    }
    RemoveNamesIsPaths(raw, paths);
    RemovalIsPruning(raw, id, order);
  }

  // ── Only then ─────────────────────────────────────────────────────

  /** What stands at a path. */
  function At(t: TableMap, path: Path): (v: Option<Value>)
    decreases path
  {
    if path == [] || path[0] !in t then None
    else if |path| == 1 then Some(t[path[0]])
    else if t[path[0]].Table? then At(t[path[0]].t, path[1..])
    else None
  }

  lemma {:induction false} RemovalMisses(t: TableMap, parts: Path, path: Path)
    requires At(t, path).Some? && !(parts <= path) && !(path <= parts)
    ensures At(RemovePath(t, parts), path) == At(t, path)
    decreases path
  {
    if parts[0] == path[0] && t[path[0]].Table? {
      assert parts == [parts[0]] + parts[1..] && path == [path[0]] + path[1..];
      RemovalMisses(t[path[0]].t, parts[1..], path[1..]);
    }
  }

  lemma {:induction false} RemovalsMiss(t: TableMap, names: seq<string>, path: Path)
    requires At(t, path).Some?
    requires forall name | name in names :: !(Split(name) <= path) && !(path <= Split(name))
    ensures At(RemoveNames(t, names), path) == At(t, path)
    decreases names
  {
    if names != [] {
      assert names[0] in names && forall name | name in names[1..] :: name in names;
      RemovalMisses(t, Split(names[0]), path);
      RemovalsMiss(RemovePath(t, Split(names[0])), names[1..], path);
    }
  }

  /** Where the first key with a dot is. */
  function FirstDot(path: Path): (n: nat)
    ensures n <= |path| && (n == |path| <==> DotFree(path)) && (n < |path| ==> '.' in path[n])
  {
    if path == [] then 0
    else if '.' in path[0] then assert path[0] in path; 0
    else
      assert path == [path[0]] + path[1..];
      1 + FirstDot(path[1..])
  }

  lemma {:induction false} DotIsFound(s: string, i: nat)
    requires i < |s| && s[i] == '.'
    ensures UpToDot(s) <= i
  {
    if s[0] != '.' {
      DotIsFound(s[1..], i - 1);
    }
  }

  /** A name with a dot too many is split into more parts than there are keys before the dot. */
  lemma {:induction false} SplitIsLonger(path: Path)
    requires !DotFree(path)
    ensures |Split(Join(path))| >= FirstDot(path) + 2
  {
    if '.' in path[0] {
      var i :| 0 <= i < |path[0]| && path[0][i] == '.';
      assert Join(path)[i] == '.';
      DotIsFound(Join(path), i);
    } else {
      var rest := path[1..];
      assert path == [path[0]] + rest;
      SplitIsLonger(rest);
      UpToDotIs(path[0], Join(rest));
      var s := path[0] + "." + Join(rest);
      assert s[..|path[0]|] == path[0] && s[|path[0]| + 1..] == Join(rest);
    }
  }

  lemma {:induction false} DivergentIsNoPrefix(p: Path, q: Path)
    requires Diverge(p, q) || Diverge(q, p)
    ensures !(p <= q)
  {
    if p[0] == q[0] {
      DivergentIsNoPrefix(p[1..], q[1..]);
      assert p == [p[0]] + p[1..] && q == [q[0]] + q[1..];
    }
  }

  lemma PartsHaveNoDots(name: string, i: nat)
    requires i < |Split(name)|
    ensures '.' !in Split(name)[i]
  {
    assert Split(name)[i] in Split(name);
  }

  /** The name of an orphan never leads to or through the first key with a dot of the orphan for which
    * that comes first. */
  lemma NameMisses(t: TableMap, paths: seq<Path>, p: Path, q: Path)
    requires Pending(t, paths) && p in paths && q in paths && !DotFree(p)
    requires DotFree(q) || FirstDot(p) <= FirstDot(q)
    ensures var parts, upto := Split(Join(q)), p[..FirstDot(p) + 1]; !(parts <= upto) && !(upto <= parts)
  {
    var n, parts := FirstDot(p), Split(Join(q));
    var upto := p[..n + 1];
    if n < |parts| {
      PartsHaveNoDots(Join(q), n);
      assert parts[n] != upto[n];
    }
    if DotFree(q) {
      var i, j :| 0 <= i < |paths| && paths[i] == p && 0 <= j < |paths| && paths[j] == q;
      assert i < j || j < i;
      assert Resolves(t, paths[j]);
      SplitJoin(q);
      DivergentIsNoPrefix(q, p);
    } else {
      SplitIsLonger(q);
    }
  }

  lemma {:induction false} EarliestDot(paths: seq<Path>, some: Path) returns (p: Path)
    requires some in paths && !DotFree(some)
    ensures p in paths && !DotFree(p)
    ensures forall q | q in paths :: DotFree(q) || FirstDot(p) <= FirstDot(q)
    decreases FirstDot(some)
  {
    if q :| q in paths && !DotFree(q) && FirstDot(q) < FirstDot(some) {
      p := EarliestDot(paths, q);
    } else {
      p := some;
    }
  }

  lemma InUnder(path: Path, key: string, paths: seq<Path>)
    ensures path in Under(key, paths) <==> path != [] && path[0] == key && path[1..] in paths
  {
    if path != [] && path[0] == key && path[1..] in paths {
      var i :| 0 <= i < |paths| && paths[i] == path[1..];
      assert Under(key, paths)[i] == [key] + path[1..] == path;
    }
  }

  /** At every step of the path of an orphan there is something that holds it. */
  lemma {:induction false} PathHolds(v: Value, keys: seq<string>, p: Path, n: nat, id: string, order: Order)
    requires IsWalk(order) && v.Table? && p in PathsBelow(v, keys, id, order) && n < |p|
    ensures p[0] in keys && At(v.t, p[..n + 1]).Some? && HoldsOrphan(At(v.t, p[..n + 1]).value, id)
    decreases v, 0, |keys|
  {
    if p in PathsBelow(v, keys[1..], id, order) {
      PathHolds(v, keys[1..], p, n, id, order);
    } else {
      var sub := v.t[keys[0]];
      InUnder(p, keys[0], PathsOf(sub, id, order));
      TableHolds(sub, p[1..], n, id, order);
      assert p[..n + 1][1..] == p[1..][..n];
    }
  }

  lemma {:induction false} TableHolds(sub: Value, below: Path, n: nat, id: string, order: Order)
    requires IsWalk(order) && sub.Table? && below in PathsOf(sub, id, order) && n <= |below|
    ensures HoldsOrphan(sub, id)
    ensures n > 0 ==> At(sub.t, below[..n]).Some? && HoldsOrphan(At(sub.t, below[..n]).value, id)
    decreases sub, 1
  {
    if !IsOrphan(sub.t, id) {
      var walk := order(TableKeys(sub.t));
      var paths := PathsBelow(sub, walk, id, order);
      PathsArePending(sub, walk, id, order);
      var i :| 0 <= i < |paths| && paths[i] == below;
      assert Resolves(sub.t, paths[i]);
      PathHolds(sub, walk, below, if n == 0 then 0 else n - 1, id, order);
      PathHolds(sub, walk, below, 0, id, order);
      assert below[..1][0] == below[0];
    }
  }

  lemma {:induction false} PrunedHoldsNone(v: Value, id: string)
    requires v.Table? && Pruned(v, id).Some?
    ensures !HoldsOrphan(Pruned(v, id).value, id)
  {
    var t := Pruned(v, id).value.t;
    PrunedIsNoOrphan(v, id);
    forall k | k in t ensures !HoldsOrphan(t[k], id) {
      if v.t[k].Table? {
        PrunedHoldsNone(v.t[k], id);
      }
    }
  }

  lemma PrunedIsNoOrphan(v: Value, id: string)
    requires v.Table? && Pruned(v, id).Some?
    ensures !IsOrphan(Pruned(v, id).value.t, id)
  {
    var t := Pruned(v, id).value.t;
    assert ProviderRef(t) == ProviderRef(v.t);
    assert forall k | k in t :: k in v.t;
  }

  lemma {:induction false} PrunedAtHoldsNone(v: Value, keys: set<string>, path: Path, id: string)
    requires v.Table? && path != [] && path[0] in keys && At(PruneTable(v, keys, id), path).Some?
    ensures !HoldsOrphan(At(PruneTable(v, keys, id), path).value, id)
    decreases path
  {
    var sub := v.t[path[0]];
    if sub.Table? {
      PrunedHoldsNone(sub, id);
      if |path| > 1 {
        assert PruneTable(v, keys, id)[path[0]] == Table(PruneTable(sub, sub.t.Keys, id));
        assert path[1] in sub.t.Keys;
        PrunedAtHoldsNone(sub, sub.t.Keys, path[1..], id);
      }
    }
  }

  lemma NamesMiss(t: TableMap, paths: seq<Path>, p: Path)
    requires Pending(t, paths) && p in paths && !DotFree(p) && At(t, p[..FirstDot(p) + 1]).Some?
    requires forall q | q in paths :: DotFree(q) || FirstDot(p) <= FirstDot(q)
    ensures At(RemoveNames(t, Named("", paths)), p[..FirstDot(p) + 1]) == At(t, p[..FirstDot(p) + 1])
  {
    var upto, names := p[..FirstDot(p) + 1], Named("", paths);
    forall name | name in names ensures !(Split(name) <= upto) && !(upto <= Split(name)) {
      var i :| 0 <= i < |names| && names[i] == name;
      assert paths[i] in paths;
      NameMisses(t, paths, p, paths[i]);
    }
    RemovalsMiss(t, names, upto);
  }

  lemma DottedStays(raw: TableMap, id: string, order: Order)
    requires IsWalk(order) && EmptyLeadsNowhere(raw, id) && !AddressableOrphans(raw, id)
    ensures RemoveNames(raw, OrphanNames(Table(raw), order(EntryKeys(raw)), "", id, order))
         != PruneTable(Table(raw), EntryKeys(raw), id)
  {
    var v, keys := Table(raw), order(EntryKeys(raw));
    var paths := PathsOfNames(raw, id, order);
    var some :| some in paths && !DotFree(some);
    var p := EarliestDot(paths, some);
    var upto := p[..FirstDot(p) + 1];
    assert Walks(keys, EntryKeys(raw));
    PathHolds(v, keys, p, FirstDot(p), id, order);
    NamesMiss(raw, paths, p);
    if At(PruneTable(v, EntryKeys(raw), id), upto).Some? {
      PrunedAtHoldsNone(v, EntryKeys(raw), upto, id);
    }
  }

  /** No name is taken apart into an empty first part. */
  predicate StartPlain(names: seq<string>) {
    forall name | name in names :: name != "" && name[0] != '.'
  }

  /** Then an entry with an empty name stays, with the orphans below it. */
  lemma EmptyEntryStays(raw: TableMap, id: string, names: seq<string>)
    requires "" in EntryKeys(raw) && HoldsOrphan(raw[""], id) && StartPlain(names)
    ensures RemoveNames(raw, names) != PruneTable(Table(raw), EntryKeys(raw), id)
  {
    var path: Path := [""];
    forall name | name in names ensures !(Split(name) <= path) && !(path <= Split(name)) {
      assert Split(name)[0] != "";
    }
    RemovalsMiss(raw, names, path);
    if At(PruneTable(Table(raw), EntryKeys(raw), id), path).Some? {
      PrunedAtHoldsNone(Table(raw), EntryKeys(raw), path, id);
    }
  }

  /** The cascade removes exactly the orphans, and the parents that empties, if and only if no key on the
    * way to an orphan has a dot and none stands below an entry with an empty name.  Left out are only
    * configurations that have an orphan there and one whose name is empty or starts with a dot. */
  lemma CascadePrunesIff(raw: TableMap, id: string, order: Order)
    requires IsWalk(order)
    requires EmptyLeadsNowhere(raw, id) || StartPlain(OrphanNames(Table(raw), order(EntryKeys(raw)), "", id, order))
    ensures RemoveNames(raw, OrphanNames(Table(raw), order(EntryKeys(raw)), "", id, order))
         == PruneTable(Table(raw), EntryKeys(raw), id)
       <==> AddressableOrphans(raw, id)
  {
    if AddressableOrphans(raw, id) {
      CascadePrunes(raw, id, order);
    } else if EmptyLeadsNowhere(raw, id) {
      DottedStays(raw, id, order);
    } else {
      EmptyEntryStays(raw, id, OrphanNames(Table(raw), order(EntryKeys(raw)), "", id, order));
    }
  }

  // ── Where the names do not lead back ──────────────────────────────

  lemma {:induction false} DottedKeysStay(t: TableMap, names: seq<string>, key: string)
    requires '.' in key
    ensures key in RemoveNames(t, names) <==> key in t
    ensures key in t ==> RemoveNames(t, names)[key] == t[key]
    decreases names
  {
    if names != [] {
      assert Split(names[0])[0] in Split(names[0]);
      DottedKeysStay(RemovePath(t, Split(names[0])), names[1..], key);
    }
  }

  /** A dotted name is taken apart again, so an entry whose own key has a dot stays with all it
    * holds, whether it is an orphan or not, in every configuration. */
  lemma DottedKeyIsMissed(raw: TableMap, id: string, order: Order, key: string)
    requires Delete(raw, id, order).Ok? && key in EntryKeys(raw) && '.' in key
    ensures var after := Delete(raw, id, order).value; key in EntryKeys(after) && after[key] == raw[key]
  {
    var t := DropProvider(raw, id).value;
    var names := OrphanNames(Table(t), order(EntryKeys(t)), "", id, order);
    DottedKeysStay(t, names, key);
  }

  lemma {:induction false} RemovalAddsNoKey(t: TableMap, names: seq<string>, key: string)
    requires key !in t
    ensures key !in RemoveNames(t, names)
    decreases names
  {
    if names != [] {
      RemovalAddsNoKey(RemovePath(t, Split(names[0])), names[1..], key);
    }
  }

  lemma {:induction false} NamedIsRemoved(t: TableMap, names: seq<string>, key: string)
    requires key in names && '.' !in key
    ensures key !in RemoveNames(t, names)
    decreases names
  {
    if names[0] == key {
      assert Join([key]) == key;
      SplitJoin([key]);
      RemovalAddsNoKey(RemovePath(t, [key]), names[1..], key);
    } else {
      NamedIsRemoved(RemovePath(t, Split(names[0])), names[1..], key);
    }
  }

  lemma {:induction false} OrphanIsListed(v: Value, keys: seq<string>, prefix: string, id: string, order: Order,
                                          key: string, name: string)
    requires v.Table? && key in keys && key in v.t && v.t[key].Table?
    requires name in OrphansAt(v.t[key], FullName(prefix, key), id, order)
    ensures name in OrphanNames(v, keys, prefix, id, order)
    decreases keys
  {
    if keys[0] != key {
      OrphanIsListed(v, keys[1..], prefix, id, order, key, name);
    }
  }

  lemma {:induction false} ListedFrom(v: Value, keys: seq<string>, prefix: string, id: string, order: Order,
                                      name: string) returns (key: string)
    requires v.Table? && name in OrphanNames(v, keys, prefix, id, order)
    ensures key in keys && key in v.t && v.t[key].Table?
    ensures name in OrphansAt(v.t[key], FullName(prefix, key), id, order)
    decreases keys
  {
    key := keys[0];
    if !(key in v.t && v.t[key].Table? && name in OrphansAt(v.t[key], FullName(prefix, key), id, order)) {
      key := ListedFrom(v, keys[1..], prefix, id, order, name);
    }
  }

  lemma {:induction false} RemovalIsElsewhere(t: TableMap, names: seq<string>, key: string, x: string)
    requires key in t && key != x && '.' !in x && forall name | name in names :: name == x
    ensures key in RemoveNames(t, names) && RemoveNames(t, names)[key] == t[key]
    decreases names
  {
    if names != [] {
      assert names[0] in names && Join([x]) == x;
      SplitJoin([x]);
      assert RemovePath(t, Split(names[0])) == t - {x};
      assert forall name | name in names[1..] :: name in names;
      RemovalIsElsewhere(t - {x}, names[1..], key, x);
    }
  }

  /** The only orphan is at ["", x]. */
  predicate OnlyBelowEmpty(t: TableMap, id: string, x: string)
    requires "" in t && t[""].Table?
  {
    x != "" && EntryKeys(t[""].t) == {x} && forall k | k in EntryKeys(t) && k != "" :: !HoldsOrphan(t[k], id)
  }

  lemma OnlyNameIs(t: TableMap, id: string, order: Order, x: string, name: string)
    requires IsWalk(order) && "" in t && t[""].Table? && !IsOrphan(t[""].t, id) && OnlyBelowEmpty(t, id, x)
    requires IsOrphan(t[""].t[x].t, id) && name in OrphanNames(Table(t), order(EntryKeys(t)), "", id, order)
    ensures name == x
  {
    assert Walks(order(EntryKeys(t)), EntryKeys(t)) && Walks(order({x}), {x});
    var key := ListedFrom(Table(t), order(EntryKeys(t)), "", id, order, name);
    if key == "" {
      var k := ListedFrom(t[""], order({x}), "", id, order, name);
    } else {
      assert !HoldsOrphan(t[key], id);
      NothingHeld(t[key], order(WalkKeys(t[key].t, key)), key, id, order);
    }
  }

  lemma EmptyKeyLists(t: TableMap, id: string, order: Order, x: string)
    requires IsWalk(order) && "" in t && t[""].Table? && !IsOrphan(t[""].t, id)
    requires x in EntryKeys(t[""].t) && IsOrphan(t[""].t[x].t, id)
    ensures x in OrphanNames(Table(t), order(EntryKeys(t)), "", id, order)
  {
    var sub := t[""];
    var keys, below := order(EntryKeys(t)), order(EntryKeys(sub.t));
    assert Walks(keys, EntryKeys(t)) && Walks(below, EntryKeys(sub.t));
    OrphanIsListed(sub, below, "", id, order, x, x);
    OrphanIsListed(Table(t), keys, "", id, order, "", x);
  }

  /** Below an empty top-level key the names start over, so deleting the provider of the orphan `x`
    * there removes the top-level entry `x`, whatever it is; if `x` is the only orphan, it stays. */
  lemma EmptyKeyHitsAnother(raw: TableMap, id: string, order: Order, x: string)
    requires IsWalk(order) && Delete(raw, id, order).Ok?
    requires "" in raw && raw[""].Table? && !IsOrphan(raw[""].t, id)
    requires x in EntryKeys(raw[""].t) && IsOrphan(raw[""].t[x].t, id) && '.' !in x
    ensures var after := Delete(raw, id, order).value;
      x !in after && (OnlyBelowEmpty(raw, id, x) ==> "" in after && after[""] == raw[""])
  {
    var t := DropProvider(raw, id).value;
    var names := OrphanNames(Table(t), order(EntryKeys(t)), "", id, order);
    EmptyKeyLists(t, id, order, x);
    NamedIsRemoved(t, names, x);
    if OnlyBelowEmpty(raw, id, x) {
      forall name | name in names ensures name == x {
        OnlyNameIs(t, id, order, x, name);
      }
      RemovalIsElsewhere(t, names, "", x);
    }
  }
}
