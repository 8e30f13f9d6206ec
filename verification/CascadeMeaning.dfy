/** What deleting a provider means for the sessions a configuration resolves to. */
module CascadeMeaning {
  import opened Wrappers
  import opened Collections
  import opened MyKey
  import opened SessionPaths
  import opened ProviderCascade
  import opened CascadeNames
  import opened CascadeTables

  /** The path leads to an orphan or through one. */
  predicate Orphaned(v: Value, path: Path, id: string)
    requires v.Table?
    decreases path
  {
    && path != [] && path[0] in TableKeys(v.t)
    && (IsOrphan(v.t[path[0]].t, id) || Orphaned(v.t[path[0]], path[1..], id))
  }

  // ── Sessions by path ──────────────────────────────────────────────

  /** One table further down, before and after. */
  lemma TableAfter(v: Value, keys: set<string>, id: string, providers: Providers, path: Path)
    requires v.Table? && path != [] && path[0] in keys
    ensures SessionAt(Table(PruneTable(v, keys, id)), path, providers - {id}) ==
      if path[0] !in TableKeys(v.t) || IsOrphan(v.t[path[0]].t, id) then None
      else
        var left := PruneTable(v.t[path[0]], v.t[path[0]].t.Keys, id);
        match ParseSession(Inject(left, providers - {id}))
        case Some(s) => if |path| == 1 then Some(s) else None
        case None => SessionAt(Table(left), path[1..], providers - {id})
  {
    if path[0] in TableKeys(v.t) && !IsOrphan(v.t[path[0]].t, id) && Pruned(v.t[path[0]], id).None? {
      NoModelNoSession(map[], providers - {id});
    }
  }

  /** Sub-tables keep their part: a session does not have extra headers that read like an orphan, and
    * what is no session does not become one by losing orphans in its fields. */
  predicate Calm(v: Value, id: string, providers: Providers)
    requires v.Table?
  {
    || IsOrphan(v.t, id)
    || (if ParseSession(Inject(v.t, providers)).Some? then !HeadersLost(v.t, id)
        else !Usable(v.t, id, providers) && forall k | k in v.t && v.t[k].Table? :: Calm(v.t[k], id, providers))
  }

  function Expected(v: Value, path: Path, id: string, providers: Providers): Option<Session>
    requires v.Table?
  {
    if Orphaned(v, path, id) then None else SessionAt(v, path, providers)
  }

  lemma ExpectedBelow(v: Value, path: Path, id: string, providers: Providers)
    requires v.Table? && path != [] && path[0] in TableKeys(v.t) && !IsOrphan(v.t[path[0]].t, id)
    ensures |path| == 1 ==> Expected(v, path, id, providers) == ParseSession(Inject(v.t[path[0]].t, providers))
    ensures ParseSession(Inject(v.t[path[0]].t, providers)).None? ==>
      Expected(v, path, id, providers) == Expected(v.t[path[0]], path[1..], id, providers)
  {
    assert |path| == 1 ==> !Orphaned(v.t[path[0]], path[1..], id);
    assert |path| == 1 ==> SessionAt(v.t[path[0]], path[1..], providers) == None;
  }

  lemma NothingBelow(v: Value, id: string, providers: Providers, path: Path)
    requires v.Table? && (path == [] || path[0] !in v.t)
    ensures SessionAt(Table(PruneTable(v, v.t.Keys, id)), path, providers - {id}) == None
    ensures Expected(v, path, id, providers) == None
  {
  }

  /** Where all is calm, pruning takes away what is orphaned and nothing else, at every path. */
  lemma {:induction false} PruningByPath(v: Value, keys: set<string>, id: string, providers: Providers, path: Path)
    requires v.Table? && path != [] && path[0] in keys
    requires forall k | k in keys && k in v.t && v.t[k].Table? :: Calm(v.t[k], id, providers)
    ensures SessionAt(Table(PruneTable(v, keys, id)), path, providers - {id}) == Expected(v, path, id, providers)
    decreases path
  {
    TableAfter(v, keys, id, providers, path);
    if path[0] in TableKeys(v.t) && !IsOrphan(v.t[path[0]].t, id) {
      var sub, below := v.t[path[0]], path[1..];
      ExpectedBelow(v, path, id, providers);
      if ParseSession(Inject(sub.t, providers)).Some? {
        SessionStays(sub, id, providers);
        var s := ParseSession(Inject(sub.t, providers)).value;
        assert Lost(sub.t, id) == {} && s.rest - {} == s.rest;
      } else {
        UsableIff(sub, id, providers);
        if below != [] && below[0] in sub.t {
          PruningByPath(sub, sub.t.Keys, id, providers, below);
        } else {
          NothingBelow(sub, id, providers, below);
        }
      }
    }
  }

  lemma LosesHeaders(v: Value, id: string, providers: Providers)
    requires v.Table? && !IsOrphan(v.t, id) && ParseSession(Inject(v.t, providers)).Some? && HeadersLost(v.t, id)
    ensures ParseSession(Inject(PruneTable(v, v.t.Keys, id), providers - {id})) != ParseSession(Inject(v.t, providers))
  {
    SessionStays(v, id, providers);
    InjectKeeps(v.t, providers);
    assert "extra_headers" in OPTIONAL;
    var s := ParseSession(Inject(v.t, providers)).value;
    assert "extra_headers" in s.rest && "extra_headers" !in s.rest - Lost(v.t, id);
  }

  /** Where it is not, some path shows it. */
  lemma {:induction false} PruningShows(v: Value, keys: set<string>, key: string, id: string, providers: Providers)
    returns (path: Path)
    requires v.Table? && key in keys && key in v.t && v.t[key].Table? && !Calm(v.t[key], id, providers)
    ensures path != [] && path[0] == key
    ensures SessionAt(Table(PruneTable(v, keys, id)), path, providers - {id}) != Expected(v, path, id, providers)
    decreases v, 0
  {
    var sub := v.t[key];
    UsableIff(sub, id, providers);
    if ParseSession(Inject(sub.t, providers)).Some? {
      path := [key];
      LosesHeaders(sub, id, providers);
    } else if Usable(sub.t, id, providers) {
      path := [key];
    } else {
      var below := ShownBelow(sub, id, providers);
      path := [key] + below;
      assert path[1..] == below;
    }
    TableAfter(v, keys, id, providers, path);
    ExpectedBelow(v, path, id, providers);
  }

  lemma {:induction false} ShownBelow(sub: Value, id: string, providers: Providers) returns (below: Path)
    requires sub.Table? && !Calm(sub, id, providers)
    requires ParseSession(Inject(sub.t, providers)).None? && !Usable(sub.t, id, providers)
    ensures SessionAt(Table(PruneTable(sub, sub.t.Keys, id)), below, providers - {id})
         != Expected(sub, below, id, providers)
    decreases sub, 1
  {
    var k :| k in sub.t && sub.t[k].Table? && !Calm(sub.t[k], id, providers);
    below := PruningShows(sub, sub.t.Keys, k, id, providers);
  }

  /** A second search for orphans of the same provider finds none. */
  lemma {:induction false} PruningLeavesNoOrphan(v: Value, all: set<string>, keys: seq<string>, prefix: string,
                                                 id: string, order: Order)
    requires IsWalk(order) && v.Table? && forall k | k in keys :: k in all
    ensures OrphanNames(Table(PruneTable(v, all, id)), keys, prefix, id, order) == []
    decreases v, |keys|
  {
    if keys != [] {
      PruningLeavesNoOrphan(v, all, keys[1..], prefix, id, order);
      var key, t := keys[0], PruneTable(v, all, id);
      if key in t && t[key].Table? {
        var sub := v.t[key];
        assert t[key] == Pruned(sub, id).value == Table(PruneTable(sub, sub.t.Keys, id));
        PrunedIsNoOrphan(sub, id);
        var full := FullName(prefix, key);
        PruningLeavesNoOrphan(sub, sub.t.Keys, order(WalkKeys(t[key].t, full)), full, id, order);
      }
    }
  }

  lemma {:induction false} SurvivorNamesAnother(v: Value, path: Path, id: string, providers: Providers)
    requires v.Table? && SessionAt(v, path, providers).Some? && !Orphaned(v, path, id)
    ensures SessionAt(v, path, providers).value.provider != Some(id)
    decreases path
  {
    var t := v.t[path[0]].t;
    var u := Inject(t, providers);
    if ParseSession(u).Some? {
      assert ProviderRef(u) == ProviderRef(t) && GetStr(u, "model") == GetStr(t, "model");
    } else {
      SurvivorNamesAnother(v.t[path[0]], path[1..], id, providers);
    }
  }

  // ── The whole deletion ────────────────────────────────────────────

  predicate Agree(t: TableMap, u: TableMap, k: string) {
    (k in t <==> k in u) && (k in t ==> t[k] == u[k])
  }

  lemma DroppedProviders(raw: TableMap, id: string)
    requires DropProvider(raw, id).Some?
    ensures var t := DropProvider(raw, id).value;
      EntryKeys(t) == EntryKeys(raw) && ParseProviders(t) == ParseProviders(raw) - {id}
  {
  }

  lemma DroppedIsAddressable(raw: TableMap, id: string)
    requires DropProvider(raw, id).Some? && AddressableOrphans(raw, id)
    ensures AddressableOrphans(DropProvider(raw, id).value, id)
  {
    DroppedProviders(raw, id);
  }

  lemma PruneReadsEntries(raw: TableMap, t: TableMap, keys: set<string>, id: string)
    requires forall k | k in keys :: k in raw && k in t && raw[k] == t[k]
    ensures forall k | k in keys :: Agree(PruneTable(Table(raw), keys, id), PruneTable(Table(t), keys, id), k)
    ensures forall k | k in t && k !in keys :: Agree(PruneTable(Table(t), keys, id), t, k)
    ensures PruneTable(Table(raw), keys, id).Keys <= raw.Keys && PruneTable(Table(t), keys, id).Keys <= t.Keys
  {
  }

  lemma PrunedEntries(raw: TableMap, t: TableMap, keys: set<string>)
    requires keys !! RESERVED && TableKeys(raw) - RESERVED <= keys && TableKeys(t) - RESERVED <= keys
    requires forall k | k in keys :: Agree(raw, t, k)
    ensures EntryKeys(raw) == EntryKeys(t) <= keys
    ensures forall k | k in EntryKeys(t) :: raw[k] == t[k]
  {
    assert forall k | k in keys :: k in TableKeys(raw) <==> k in TableKeys(t);
  }

  lemma PrunedKeysAreEntries(raw: TableMap, id: string)
    ensures EntryKeys(PruneTable(Table(raw), EntryKeys(raw), id)) <= EntryKeys(raw)
  {
  }

  /** What is read of the entries afterwards is decided by the pruned tree. */
  lemma DeleteIsPrune(raw: TableMap, id: string, order: Order)
    requires IsWalk(order) && AddressableOrphans(raw, id) && Delete(raw, id, order).Ok?
    ensures var after, pruned := Delete(raw, id, order).value, PruneTable(Table(raw), EntryKeys(raw), id);
      && EntryKeys(after) == EntryKeys(pruned) <= EntryKeys(raw)
      && (forall k | k in EntryKeys(after) :: after[k] == pruned[k])
      && ParseProviders(after) == ParseProviders(raw) - {id}
  {
    var t := DropProvider(raw, id).value;
    DroppedProviders(raw, id);
    DroppedIsAddressable(raw, id);
    CascadePrunes(t, id, order);
    var dropped := PruneTable(Table(t), EntryKeys(t), id);
    var pruned := PruneTable(Table(raw), EntryKeys(raw), id);
    PruneReadsEntries(raw, t, EntryKeys(raw), id);
    PrunedKeysAreEntries(raw, id);
    PrunedKeysAreEntries(t, id);
    PrunedEntries(pruned, dropped, EntryKeys(raw));
    var names := OrphanNames(Table(t), order(EntryKeys(t)), "", id, order);
    ClearDefaultKeeps(dropped, names);
    assert Agree(dropped, t, "providers");
  }

  lemma ClearDefaultKeeps(t: TableMap, names: seq<string>)
    ensures EntryKeys(ClearDefault(t, names)) == EntryKeys(t)
    ensures forall k | k != "default_session" :: Agree(ClearDefault(t, names), t, k)
    ensures var d := GetStr(ClearDefault(t, names), "default_session"); d.Some? ==> d.value !in names
  {
  }

  predicate CalmEntries(raw: TableMap, id: string) {
    forall k | k in EntryKeys(raw) :: Calm(raw[k], id, ParseProviders(raw))
  }

  lemma AfterIsPruned(raw: TableMap, id: string, order: Order, path: Path)
    requires IsWalk(order) && AddressableOrphans(raw, id) && Delete(raw, id, order).Ok?
    ensures SessionOf(Delete(raw, id, order).value, path)
         == if path == [] || path[0] !in EntryKeys(raw) then None
            else SessionAt(Table(PruneTable(Table(raw), EntryKeys(raw), id)), path, ParseProviders(raw) - {id})
  {
    DeleteIsPrune(raw, id, order);
    assert forall k | k in PruneTable(Table(raw), EntryKeys(raw), id) :: k in raw;
  }

  /** Deleting a provider removes the sessions at or below its orphans and keeps every other session,
    * with every field it had, and adds none, if and only if all is calm: no other session has extra
    * headers that read like an orphan, and no other table becomes one by losing orphans. */
  lemma DeleteKeepsIff(raw: TableMap, id: string, order: Order)
    requires IsWalk(order) && AddressableOrphans(raw, id) && Delete(raw, id, order).Ok?
    ensures var after := Delete(raw, id, order).value;
      (forall path :: SessionOf(after, path) == if Orphaned(Table(raw), path, id) then None else SessionOf(raw, path))
      <==> CalmEntries(raw, id)
  {
    var after, v, providers := Delete(raw, id, order).value, Table(raw), ParseProviders(raw);
    if CalmEntries(raw, id) {
      forall path
        ensures SessionOf(after, path) == if Orphaned(Table(raw), path, id) then None else SessionOf(raw, path)
      {
        AfterIsPruned(raw, id, order, path);
        if path != [] && path[0] in EntryKeys(raw) {
          PruningByPath(v, EntryKeys(raw), id, providers, path);
        }
      }
    } else {
      var k :| k in EntryKeys(raw) && !Calm(raw[k], id, providers);
      var path := PruningShows(v, EntryKeys(raw), k, id, providers);
      AfterIsPruned(raw, id, order, path);
      assert SessionOf(after, path) != if Orphaned(Table(raw), path, id) then None else SessionOf(raw, path);
    }
  }

  ghost predicate Survives(raw: TableMap, id: string, found: (string, Session)) {
    exists path ::
      SessionOf(raw, path) == Some(found.1) && NameAt("", path) == found.0 && !Orphaned(Table(raw), path, id)
  }

  /** The sessions found afterwards are then exactly the survivors, and none names the provider. */
  lemma DeleteKeepsSurvivors(raw: TableMap, id: string, order: Order)
    requires IsWalk(order) && AddressableOrphans(raw, id) && Delete(raw, id, order).Ok? && CalmEntries(raw, id)
    ensures var after := Delete(raw, id, order).value;
      && (forall found :: found in FindSessions(after, order) <==> Survives(raw, id, found))
      && (forall found | found in FindSessions(after, order) :: found.1.provider != Some(id))
  {
    var after := Delete(raw, id, order).value;
    DeleteKeepsIff(raw, id, order);
    forall found ensures found in FindSessions(after, order) <==> Survives(raw, id, found)
      ensures found in FindSessions(after, order) ==> found.1.provider != Some(id)
    {
      FoundIffAtPath(after, order, found);
      if ResolvesTo(after, found) {
        var path :| SessionOf(after, path) == Some(found.1) && NameAt("", path) == found.0;
        assert SessionOf(raw, path) == Some(found.1) && !Orphaned(Table(raw), path, id);
        SurvivorNamesAnother(Table(raw), path, id, ParseProviders(raw));
      }
      if Survives(raw, id, found) {
        var path :| SessionOf(raw, path) == Some(found.1) && NameAt("", path) == found.0
          && !Orphaned(Table(raw), path, id);
        assert SessionOf(after, path) == Some(found.1);
      }
    }
  }

  lemma {:induction false} NamesRead(v: Value, w: Value, keys: seq<string>, prefix: string, id: string, order: Order)
    requires v.Table? && w.Table?
    requires forall k | k in keys :: k in TableKeys(v.t) <==> k in TableKeys(w.t)
    requires forall k | k in keys && k in TableKeys(v.t) :: k in w.t && v.t[k] == w.t[k]
    ensures OrphanNames(v, keys, prefix, id, order) == OrphanNames(w, keys, prefix, id, order)
    decreases keys
  {
    if keys != [] {
      NamesRead(v, w, keys[1..], prefix, id, order);
      assert keys[0] in TableKeys(v.t) <==> keys[0] in TableKeys(w.t);
    }
  }

  lemma NoOrphanAfter(raw: TableMap, id: string, order: Order)
    requires IsWalk(order) && AddressableOrphans(raw, id) && Delete(raw, id, order).Ok?
    ensures var after := Delete(raw, id, order).value;
      OrphanNames(Table(after), order(EntryKeys(after)), "", id, order) == []
  {
    var after, pruned := Delete(raw, id, order).value, PruneTable(Table(raw), EntryKeys(raw), id);
    DeleteIsPrune(raw, id, order);
    var keys := order(EntryKeys(after));
    PruningLeavesNoOrphan(Table(raw), EntryKeys(raw), keys, "", id, order);
    NamesRead(Table(after), Table(pruned), keys, "", id, order);
  }

  // ── What goes wrong where it is not calm ──────────────────────────

  lemma OneKey(v: Value, path: Path, providers: Providers)
    requires v.Table? && |path| == 1 && path[0] in TableKeys(v.t)
    ensures SessionAt(v, path, providers) == ParseSession(Inject(v.t[path[0]].t, providers))
  {
    assert SessionAt(v.t[path[0]], path[1..], providers) == None;
  }

  lemma OneKeyAfter(v: Value, keys: set<string>, id: string, providers: Providers, path: Path)
    requires v.Table? && |path| == 1 && path[0] in TableKeys(v.t) * keys && !IsOrphan(v.t[path[0]].t, id)
    ensures SessionAt(Table(PruneTable(v, keys, id)), path, providers - {id})
         == ParseSession(Inject(PruneTable(v.t[path[0]], v.t[path[0]].t.Keys, id), providers - {id}))
  {
    TableAfter(v, keys, id, providers, path);
    assert path[1..] == [];
  }

  lemma EntryAfter(raw: TableMap, id: string, order: Order, key: string)
    requires IsWalk(order) && AddressableOrphans(raw, id) && Delete(raw, id, order).Ok?
    requires key in EntryKeys(raw) && !IsOrphan(raw[key].t, id)
    ensures SessionOf(raw, [key]) == ParseSession(Inject(raw[key].t, ParseProviders(raw)))
    ensures SessionOf(Delete(raw, id, order).value, [key])
         == ParseSession(Inject(PruneTable(raw[key], raw[key].t.Keys, id), ParseProviders(raw) - {id}))
  {
    AfterIsPruned(raw, id, order, [key]);
    OneKey(Table(raw), [key], ParseProviders(raw));
    OneKeyAfter(Table(raw), EntryKeys(raw), id, ParseProviders(raw), [key]);
  }

  /** A session whose extra headers are called `provider` and `model`, say, loses them all. */
  lemma HeadersLikeAnOrphanAreLost(raw: TableMap, id: string, order: Order, key: string)
    requires IsWalk(order) && AddressableOrphans(raw, id) && Delete(raw, id, order).Ok?
    requires key in EntryKeys(raw) && !IsOrphan(raw[key].t, id) && SessionOf(raw, [key]).Some?
    requires HeadersLost(raw[key].t, id)
    ensures var s := SessionOf(raw, [key]).value;
      "extra_headers" in s.rest
      && SessionOf(Delete(raw, id, order).value, [key]) == Some(s.(rest := s.rest - {"extra_headers"}))
  {
    EntryAfter(raw, id, order, key);
    SessionStays(raw[key], id, ParseProviders(raw));
    InjectKeeps(raw[key].t, ParseProviders(raw));
    assert "extra_headers" in OPTIONAL;
  }

  /** It names another provider and has its own key, but an orphan where the base URL should be. */
  predicate HasOrphanForUrl(t: TableMap, id: string, providers: Providers) {
    && IsText(t, "model") && IsText(t, "apikey") && Lends(t, id, providers)
    && "apibase" in t && t["apibase"].Table? && IsOrphan(t["apibase"].t, id)
    && forall k | k in t && k in OPTIONAL :: FieldOk(k, t[k])
  }

  lemma BecomesUsable(t: TableMap, id: string, providers: Providers)
    requires HasOrphanForUrl(t, id, providers)
    ensures !IsOrphan(t, id) && Usable(t, id, providers) && ParseSession(Inject(t, providers)).None?
  {
    ParsesIff(t, providers);
    forall k | k in t && k in OPTIONAL ensures FieldLeft(k, t[k], id) {
      if k == "extra_headers" {
        TableFieldIsHeaders(k, t[k]);
      }
    }
  }

  /** Such an entry is no session before; afterwards it borrows the base URL of the provider it names. */
  lemma DroppedFieldAddsSession(raw: TableMap, id: string, order: Order, key: string)
    requires IsWalk(order) && AddressableOrphans(raw, id) && Delete(raw, id, order).Ok?
    requires key in EntryKeys(raw) && HasOrphanForUrl(raw[key].t, id, ParseProviders(raw))
    ensures SessionOf(raw, [key]).None?
    ensures SessionOf(Delete(raw, id, order).value, [key]).Some?
  {
    BecomesUsable(raw[key].t, id, ParseProviders(raw));
    EntryAfter(raw, id, order, key);
    UsableIff(raw[key], id, ParseProviders(raw));
  }

  lemma WithOrphanForUrl()
    ensures HasOrphanForUrl(
      map["model" := Str("m"), "apikey" := Str("k"), "provider" := Str("q"),
          "apibase" := Table(map["provider" := Str("p"), "model" := Str("n")])],
      "p", map["q" := Provider("u", "")])
  {
    var url := map["provider" := Str("p"), "model" := Str("n")];
    assert IsOrphan(url, "p");
    assert forall k | k in {"model", "apikey", "provider", "apibase"} :: k !in OPTIONAL;
  }

  lemma SameOrphans(raw: TableMap, id: string, order: Order)
    requires IsWalk(order) && DropProvider(raw, id).Some?
    ensures var t := DropProvider(raw, id).value;
      OrphanNames(Table(t), order(EntryKeys(t)), "", id, order)
      == OrphanNames(Table(raw), order(EntryKeys(raw)), "", id, order)
  {
    DroppedProviders(raw, id);
    NamesRead(Table(DropProvider(raw, id).value), Table(raw), order(EntryKeys(raw)), "", id, order);
  }

  // ── The same, as the program does it ──────────────────────────────

  /** `collect_provider_orphans`: push the dotted names of the orphans below `v` onto `out`. */
  method CollectProviderOrphans(v: Value, id: string, prefix: string, order: Order, out: seq<string>)
    returns (r: seq<string>)
    requires v.Table?
    ensures r == out + OrphanNames(v, order(WalkKeys(v.t, prefix)), prefix, id, order)
    decreases v
  {
    var keys := order(WalkKeys(v.t, prefix));
    r := out;
    assert keys[0..] == keys;
    for i := 0 to |keys|
      invariant out + OrphanNames(v, keys, prefix, id, order) == r + OrphanNames(v, keys[i..], prefix, id, order)
    {
      var key := keys[i];
      assert keys[i..][0] == key && keys[i..][1..] == keys[i + 1..];
      ghost var tail := OrphanNames(v, keys[i + 1..], prefix, id, order);
      if key in v.t && v.t[key].Table? {
        var sub, full := v.t[key], FullName(prefix, key);
        Regroup(r, OrphansAt(sub, full, id, order), tail);
        if IsOrphan(sub.t, id) {
          r := r + [full];
        } else {
          r := CollectProviderOrphans(sub, id, full, order, r);
        }
      } else {
        Regroup(r, [], tail);
      }
    }
  }

  method RemoveEntries(t: TableMap, names: seq<string>) returns (table: TableMap, deleted: nat)
    ensures table == RemoveNames(t, names) && deleted == |names|
  {
    table, deleted := t, 0;
    assert names[0..] == names;
    for i := 0 to |names|
      invariant deleted == i && RemoveNames(t, names) == RemoveNames(table, names[i..])
    {
      assert names[i..][0] == names[i] && names[i..][1..] == names[i + 1..];
      table := RemovePath(table, Split(names[i]));
      deleted := deleted + 1;
    }
  }

  /** `delete_provider`: the new configuration, and how many entries went with the provider. */
  method DeleteProvider(raw: TableMap, id: string, order: Order)
    returns (r: Result<TableMap, DeleteError>, deleted: nat)
    requires IsWalk(order)
    ensures r == Delete(raw, id, order)
    ensures deleted == if r.Ok? then |OrphanNames(Table(raw), order(EntryKeys(raw)), "", id, order)| else 0
  {
    var dropped := DropProvider(raw, id);
    if dropped.None? {
      return Err(ProviderNotFound(id)), 0;
    }
    var orphans := CollectProviderOrphans(Table(dropped.value), id, "", order, []);
    assert orphans == OrphanNames(Table(dropped.value), order(EntryKeys(dropped.value)), "", id, order);
    SameOrphans(raw, id, order);
    var table, n := RemoveEntries(dropped.value, orphans);
    var default_session := GetStr(table, "default_session");
    if default_session.Some? && default_session.value in orphans {
      table := table - {"default_session"};
    }
    r, deleted := Ok(table), n;
  }
}
