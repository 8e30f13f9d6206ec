/** Deleting a provider together with every model entry that references it. */
module ProviderCascade {
  import opened Wrappers
  import opened Collections
  import opened MyKey
  import opened SessionPaths

  /** A session entry that references the provider. */
  predicate IsOrphan(t: TableMap, id: string) {
    ProviderRef(t) == Some(id) && LooksLikeSessionEntry(t)
  }

  lemma OrphansAre(t: TableMap, id: string)
    ensures IsOrphan(t, id)
       <==> "provider" in t && t["provider"] == Str(id) && ("model" in t || "apibase" in t || "context_win" in t)
  {
  }

  // ── Dotted names ──────────────────────────────────────────────────

  function Join(path: Path): string {
    if path == [] then "" else if |path| == 1 then path[0] else path[0] + "." + Join(path[1..])
  }

  function UpToDot(s: string): (n: nat)
    ensures n <= |s| && '.' !in s[..n] && (n < |s| ==> s[n] == '.')
  {
    if s == "" || s[0] == '.' then 0
    else
      var n := UpToDot(s[1..]);
      assert s[..n + 1] == [s[0]] + s[1..][..n];
      n + 1
  }

  /** `split('.')`. */
  function Split(s: string): (parts: Path)
    ensures parts != [] && forall k | k in parts :: '.' !in k
    decreases |s|
  {
    var n := UpToDot(s);
    if n == |s| then [s] else [s[..n]] + Split(s[n + 1..])
  }

  lemma UpToDotIs(head: string, tail: string)
    requires '.' !in head
    ensures UpToDot(head) == |head| && UpToDot(head + "." + tail) == |head|
  {
    var s := head + "." + tail;
    assert forall i | 0 <= i < |head| :: s[i] == head[i];
    assert s[|head|] == '.';
    assert '.' !in s[..UpToDot(s)];
  }

  predicate DotFree(path: Path) {
    forall k | k in path :: '.' !in k
  }

  lemma {:induction false} SplitJoin(path: Path)
    requires path != [] && DotFree(path)
    ensures Split(Join(path)) == path
  {
    assert path[0] in path;
    UpToDotIs(path[0], Join(path[1..]));
    if |path| > 1 {
      SplitJoin(path[1..]);
      var s := Join(path);
      assert s[..|path[0]|] == path[0] && s[|path[0]| + 1..] == Join(path[1..]);
    }
  }

  // ── The cascade as the program does it ────────────────────────────

  /** Where the walk goes from a table: reserved names are skipped while the prefix is empty. */
  function WalkKeys(t: TableMap, prefix: string): set<string> {
    if prefix == "" then EntryKeys(t) else TableKeys(t)
  }

  /** The dotted names of the orphans at and below the table called `name`. */
  function OrphansAt(v: Value, name: string, id: string, order: Order): (names: seq<string>)
    requires v.Table?
    decreases v, 1
  {
    if IsOrphan(v.t, id) then [name] else OrphanNames(v, order(WalkKeys(v.t, name)), name, id, order)
  }

  /** The same for the entries `keys` of `v`. */
  function OrphanNames(v: Value, keys: seq<string>, prefix: string, id: string, order: Order): (names: seq<string>)
    requires v.Table?
    decreases v, 0, |keys|
  {
    if keys == [] then []
    else
      (if keys[0] in v.t && v.t[keys[0]].Table?
       then OrphansAt(v.t[keys[0]], FullName(prefix, keys[0]), id, order) else [])
      + OrphanNames(v, keys[1..], prefix, id, order)
  }

  /** `walk` of `remove_entry_by_dotted_name`: remove the entry, and the parents this empties. */
  function RemovePath(t: TableMap, parts: Path): (r: TableMap)
    decreases parts
  {
    if parts == [] then t
    else if |parts| == 1 then t - {parts[0]}
    else if parts[0] !in t || !t[parts[0]].Table? then t
    else
      var child := RemovePath(t[parts[0]].t, parts[1..]);
      if child == map[] then t - {parts[0]} else t[parts[0] := Table(child)]
  }

  function RemoveNames(t: TableMap, names: seq<string>): (r: TableMap)
    decreases names
  {
    if names == [] then t else RemoveNames(RemovePath(t, Split(names[0])), names[1..])
  }

  /** Drop `[providers.<id>]`; nothing if there is no such provider. */
  function DropProvider(raw: TableMap, id: string): (r: Option<TableMap>) {
    if "providers" in raw && raw["providers"].Table? && id in raw["providers"].t
    then Some(raw["providers" := Table(raw["providers"].t - {id})])
    else None
  }

  function ClearDefault(t: TableMap, names: seq<string>): (r: TableMap) {
    match GetStr(t, "default_session")
    case Some(d) => if d in names then t - {"default_session"} else t
    case None => t
  }

  datatype DeleteError = ProviderNotFound(id: string)

  function Delete(raw: TableMap, id: string, order: Order): (r: Result<TableMap, DeleteError>) {
    match DropProvider(raw, id)
    case None => Err(ProviderNotFound(id))
    case Some(t) =>
      var names := OrphanNames(Table(t), order(EntryKeys(t)), "", id, order);
      Ok(ClearDefault(RemoveNames(t, names), names))
  }

  // ── What it should do ─────────────────────────────────────────────

  /** What is left of a table: nothing if it is an orphan, or if all it held was dropped. */
  function Pruned(v: Value, id: string): (r: Option<Value>)
    requires v.Table?
    ensures r.Some? ==> r.value.Table?
    decreases v, 1
  {
    if IsOrphan(v.t, id) then None
    else
      var t := PruneTable(v, v.t.Keys, id);
      if t == map[] && v.t != map[] then None else Some(Table(t))
  }

  /** The table without the orphans at and below the entries `keys`. */
  function PruneTable(v: Value, keys: set<string>, id: string): (t: TableMap)
    requires v.Table?
    decreases v, 0
  {
    map k | k in v.t && (k in keys && v.t[k].Table? ==> Pruned(v.t[k], id).Some?)
      :: if k in keys && v.t[k].Table? then Pruned(v.t[k], id).value else v.t[k]
  }

  // ── Orphans by path ───────────────────────────────────────────────

  function Under(key: string, paths: seq<Path>): (r: seq<Path>)
    ensures |r| == |paths| && forall i | 0 <= i < |r| :: r[i] == [key] + paths[i]
  {
    seq(|paths|, i requires 0 <= i < |paths| => [key] + paths[i])
  }

  /** The paths of the orphans at and below a table. */
  function PathsOf(v: Value, id: string, order: Order): (paths: seq<Path>)
    requires v.Table?
    decreases v, 1
  {
    if IsOrphan(v.t, id) then [[]] else PathsBelow(v, order(TableKeys(v.t)), id, order)
  }

  function PathsBelow(v: Value, keys: seq<string>, id: string, order: Order): (paths: seq<Path>)
    requires v.Table?
    decreases v, 0, |keys|
  {
    if keys == [] then []
    else
      (if keys[0] in v.t && v.t[keys[0]].Table? then Under(keys[0], PathsOf(v.t[keys[0]], id, order)) else [])
      + PathsBelow(v, keys[1..], id, order)
  }

  function RemovePaths(t: TableMap, paths: seq<Path>): (r: TableMap)
    decreases paths
  {
    if paths == [] then t else RemovePaths(RemovePath(t, paths[0]), paths[1..])
  }

  lemma {:induction false} RemovePathsAppend(t: TableMap, a: seq<Path>, b: seq<Path>)
    ensures RemovePaths(t, a + b) == RemovePaths(RemovePaths(t, a), b)
    decreases a
  {
    if a == [] {
      assert a + b == b;
    } else {
      RemovePathsAppend(RemovePath(t, a[0]), a[1..], b);
      assert (a + b)[1..] == a[1..] + b;
    }
  }

  /** There is something at the path. */
  predicate Resolves(t: TableMap, p: Path)
    decreases p
  {
    p != [] && p[0] in t && (|p| == 1 || (t[p[0]].Table? && Resolves(t[p[0]].t, p[1..])))
  }

  /** Neither path leads through the other. */
  predicate Diverge(p: Path, q: Path) {
    p != [] && q != [] && (p[0] != q[0] || Diverge(p[1..], q[1..]))
  }

  lemma {:induction false} RemovalKeepsOthers(t: TableMap, p: Path, q: Path)
    requires Resolves(t, p) && Diverge(q, p)
    ensures Resolves(RemovePath(t, q), p)
    decreases p
  {
    if p[0] == q[0] && t[p[0]].Table? {
      RemovalKeepsOthers(t[p[0]].t, p[1..], q[1..]);
    }
  }

  /** Paths that all resolve, none through another. */
  predicate Pending(t: TableMap, paths: seq<Path>) {
    && (forall i | 0 <= i < |paths| :: Resolves(t, paths[i]))
    && forall i, j | 0 <= i < j < |paths| :: Diverge(paths[i], paths[j])
  }

  /** Removing pending paths below one key is removing them in its table; the key goes when the
    * last of them empties the table, and not before. */
  lemma {:induction false} RemoveUnder(t: TableMap, key: string, paths: seq<Path>)
    requires key in t && t[key].Table? && paths != [] && Pending(t[key].t, paths)
    ensures var left := RemovePaths(t[key].t, paths);
      RemovePaths(t, Under(key, paths)) == if left == map[] then t - {key} else t[key := Table(left)]
    decreases paths
  {
    var p, rest, under := paths[0], paths[1..], Under(key, paths);
    var child := RemovePath(t[key].t, p);
    assert under[0] == [key] + p && under[0][1..] == p && under[1..] == Under(key, rest);
    assert Resolves(t[key].t, p);
    forall i | 0 <= i < |rest| ensures Resolves(child, rest[i]) {
      RemovalKeepsOthers(t[key].t, paths[i + 1], p);
    }
    if rest == [] {
      assert RemovePaths(t, under) == RemovePath(t, under[0]);
    } else {
      assert Resolves(child, rest[0]);
      var next := t[key := Table(child)];
      RemoveUnder(next, key, rest);
      assert next - {key} == t - {key};
    }
  }

  lemma PendingUnder(t: TableMap, key: string, paths: seq<Path>)
    requires key in t && t[key].Table? && (paths == [[]] || Pending(t[key].t, paths))
    ensures Pending(t, Under(key, paths))
  {
  }

  lemma PendingAppend(t: TableMap, key: string, a: seq<Path>, b: seq<Path>)
    requires Pending(t, a) && Pending(t, b)
    requires forall i | 0 <= i < |a| :: a[i][0] == key
    requires forall i | 0 <= i < |b| :: b[i][0] != key
    ensures Pending(t, a + b)
  {
  }

  /** The orphans found below a table are all there, none inside another. */
  lemma {:induction false} PathsArePending(v: Value, keys: seq<string>, id: string, order: Order)
    requires IsWalk(order) && v.Table? && Distinct(keys)
    ensures Pending(v.t, PathsBelow(v, keys, id, order))
    ensures forall i | 0 <= i < |PathsBelow(v, keys, id, order)| :: PathsBelow(v, keys, id, order)[i][0] in keys
    decreases v, |keys|
  {
    if keys != [] {
      var key, below := keys[0], PathsBelow(v, keys[1..], id, order);
      PathsArePending(v, keys[1..], id, order);
      if key in v.t && v.t[key].Table? {
        var sub := v.t[key];
        var paths := PathsOf(sub, id, order);
        if !IsOrphan(sub.t, id) {
          PathsArePending(sub, order(TableKeys(sub.t)), id, order);
        }
        PendingUnder(v.t, key, paths);
        PendingAppend(v.t, key, Under(key, paths), below);
      }
    }
  }

  /** `w` with the entries `keys` of `v` pruned. */
  function PruneKeys(w: TableMap, v: Value, keys: seq<string>, id: string): (t: TableMap)
    requires v.Table? && forall k | k in keys :: k in v.t && v.t[k].Table?
  {
    map k | k in w && (k in keys ==> Pruned(v.t[k], id).Some?) :: if k in keys then Pruned(v.t[k], id).value else w[k]
  }

  lemma PruneStep(w: TableMap, next: TableMap, v: Value, keys: seq<string>, id: string)
    requires v.Table? && keys != [] && Distinct(keys) && forall k | k in keys :: k in v.t && v.t[k].Table? && k in w
    requires next == match Pruned(v.t[keys[0]], id) case None => w - {keys[0]} case Some(left) => w[keys[0] := left]
    ensures PruneKeys(next, v, keys[1..], id) == PruneKeys(w, v, keys, id)
  {
    assert forall k :: k in keys <==> k == keys[0] || k in keys[1..];
  }

  lemma PruneAll(v: Value, keys: seq<string>, all: set<string>, id: string)
    requires v.Table? && forall k :: k in keys <==> k in TableKeys(v.t) && k in all
    ensures PruneKeys(v.t, v, keys, id) == PruneTable(v, all, id)
  {
  }

  lemma {:induction false} RemoveKey(w: TableMap, key: string, sub: Value, id: string, order: Order)
    requires IsWalk(order) && sub.Table? && key in w && w[key] == sub
    ensures RemovePaths(w, Under(key, PathsOf(sub, id, order)))
         == match Pruned(sub, id) case None => w - {key} case Some(left) => w[key := left]
    decreases sub, 1
  {
    var paths := PathsOf(sub, id, order);
    if IsOrphan(sub.t, id) {
      var under := Under(key, paths);
      assert under[0] == [key] + [] == [key];
      assert RemovePaths(w, under) == RemovePaths(RemovePath(w, [key]), under[1..]);
    } else {
      var keys := order(TableKeys(sub.t));
      RemoveBelow(sub.t, sub, keys, id, order);
      PruneAll(sub, keys, sub.t.Keys, id);
      if paths == [] {
        assert w[key := sub] == w;
      } else {
        PathsArePending(sub, keys, id, order);
        assert Resolves(sub.t, paths[0]);
        RemoveUnder(w, key, paths);
      }
    }
  }

  lemma {:induction false} RemoveBelow(w: TableMap, v: Value, keys: seq<string>, id: string, order: Order)
    requires IsWalk(order) && v.Table? && Distinct(keys)
    requires forall k | k in keys :: k in v.t && v.t[k].Table? && k in w && w[k] == v.t[k]
    ensures RemovePaths(w, PathsBelow(v, keys, id, order)) == PruneKeys(w, v, keys, id)
    decreases v, 0, |keys|
  {
    if keys != [] {
      var key, rest := keys[0], keys[1..];
      var under := Under(key, PathsOf(v.t[key], id, order));
      RemoveKey(w, key, v.t[key], id, order);
      var next := RemovePaths(w, under);
      RemovePathsAppend(w, under, PathsBelow(v, rest, id, order));
      RemoveBelow(next, v, rest, id, order);
      PruneStep(w, next, v, keys, id);
    }
  }

  /** Removing the orphans one after the other is pruning the tree in one go. */
  lemma RemovalIsPruning(raw: TableMap, id: string, order: Order)
    requires IsWalk(order)
    ensures RemovePaths(raw, PathsBelow(Table(raw), order(EntryKeys(raw)), id, order))
         == PruneTable(Table(raw), EntryKeys(raw), id)
  {
    var keys := order(EntryKeys(raw));
    RemoveBelow(raw, Table(raw), keys, id, order);
    PruneAll(Table(raw), keys, EntryKeys(raw), id);
  }
}
