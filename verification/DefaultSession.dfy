/** What deleting a provider does to the default session. */
module DefaultSession {
  import opened Wrappers
  import opened Collections
  import opened MyKey
  import opened SessionPaths
  import opened ProviderCascade
  import opened CascadeNames
  import opened CascadeTables
  import opened CascadeMeaning

  /** A table before the end of the path is an orphan. */
  predicate BelowOrphan(v: Value, path: Path, id: string)
    requires v.Table?
    decreases path
  {
    && |path| > 1 && path[0] in TableKeys(v.t)
    && (IsOrphan(v.t[path[0]].t, id) || BelowOrphan(v.t[path[0]], path[1..], id))
  }

  /** A table before the end of the path becomes a session. */
  predicate Shadowed(v: Value, path: Path, id: string, providers: Providers)
    requires v.Table?
    decreases path
  {
    && |path| > 1 && path[0] in TableKeys(v.t)
    && (Usable(v.t[path[0]].t, id, providers) || Shadowed(v.t[path[0]], path[1..], id, providers))
  }

  lemma {:induction false} StaysReachable(v: Value, keys: set<string>, path: Path, id: string, providers: Providers)
    requires v.Table? && path != [] && path[0] in keys && SessionAt(v, path, providers).Some?
    ensures SessionAt(Table(PruneTable(v, keys, id)), path, providers - {id}).Some?
       <==> !Orphaned(v, path, id) && !Shadowed(v, path, id, providers)
    decreases path
  {
    TableAfter(v, keys, id, providers, path);
    var sub := v.t[path[0]];
    if !IsOrphan(sub.t, id) {
      UsableIff(sub, id, providers);
      if |path| == 1 {
        OneKey(v, path, providers);
        StaysUsable(sub, id, providers);
        assert !Orphaned(sub, path[1..], id);
      } else {
        StaysReachable(sub, sub.t.Keys, path[1..], id, providers);
      }
    }
  }

  /** The orphans listed are the topmost ones. */
  lemma {:induction false} TopOrphanListed(v: Value, keys: seq<string>, path: Path, id: string, order: Order)
    requires IsWalk(order) && v.Table?
    ensures path in PathsBelow(v, keys, id, order)
       <==> path != [] && path[0] in keys && Orphaned(v, path, id) && !BelowOrphan(v, path, id)
    decreases v, |keys|
  {
    if keys != [] {
      TopOrphanListed(v, keys[1..], path, id, order);
      var key := keys[0];
      if key in v.t && v.t[key].Table? {
        var sub := v.t[key];
        InUnder(path, key, PathsOf(sub, id, order));
        if path != [] && path[0] == key {
          if IsOrphan(sub.t, id) {
            assert path[1..] == [] <==> |path| == 1;
          } else {
            assert Walks(order(TableKeys(sub.t)), TableKeys(sub.t));
            TopOrphanListed(sub, order(TableKeys(sub.t)), path[1..], id, order);
          }
        }
      }
    }
  }

  /** No table has a dot in its key, or an empty one. */
  predicate PlainKeys(v: Value) {
    v.Table? ==> forall k | k in v.t && v.t[k].Table? :: k != "" && '.' !in k && PlainKeys(v.t[k])
  }

  predicate PlainEntries(raw: TableMap) {
    forall k | k in EntryKeys(raw) :: k != "" && '.' !in k && PlainKeys(raw[k])
  }

  lemma {:induction false} PlainIsAddressable(v: Value, id: string)
    requires v.Table? && PlainKeys(v)
    ensures Addressable(v, id)
  {
    forall k | k in v.t && HoldsOrphan(v.t[k], id) ensures Addressable(v.t[k], id) {
      PlainIsAddressable(v.t[k], id);
    }
  }

  /** There are tables all along the path. */
  predicate Leads(v: Value, path: Path)
    requires v.Table?
    decreases path
  {
    path != [] && path[0] in TableKeys(v.t) && (|path| == 1 || Leads(v.t[path[0]], path[1..]))
  }

  lemma {:induction false} NameIsJoin(v: Value, prefix: string, path: Path)
    requires v.Table? && Leads(v, path) && path[0] != "" && '.' !in path[0] && PlainKeys(v.t[path[0]])
    ensures DotFree(path) && NameAt(prefix, path) == FullName(prefix, Join(path))
    decreases path
  {
    if |path| > 1 {
      var below, full := path[1..], FullName(prefix, path[0]);
      NameIsJoin(v.t[path[0]], full, below);
      assert path == [path[0]] + below;
      if prefix != "" {
        assert prefix + "." + (path[0] + "." + Join(below)) == prefix + "." + path[0] + "." + Join(below);
      }
    }
  }

  lemma {:induction false} SessionLeads(v: Value, path: Path, providers: Providers)
    requires v.Table? && SessionAt(v, path, providers).Some?
    ensures Leads(v, path)
    decreases path
  {
    if |path| > 1 {
      SessionLeads(v.t[path[0]], path[1..], providers);
    }
  }

  lemma {:induction false} LeftLeads(v: Value, keys: set<string>, path: Path, id: string)
    requires v.Table? && path != [] && path[0] in keys && Leads(Table(PruneTable(v, keys, id)), path)
    ensures Leads(v, path)
    decreases path
  {
    if |path| > 1 {
      var sub := v.t[path[0]];
      var left := PruneTable(sub, sub.t.Keys, id);
      assert PruneTable(v, keys, id)[path[0]] == Table(left);
      assert path[1..][0] in left && Leads(Table(left), path[1..]);
      LeftLeads(sub, sub.t.Keys, path[1..], id);
    }
  }

  /** With plain keys a dotted name says where it leads, before and after. */
  lemma NameFixesPath(raw: TableMap, id: string, order: Order, p: Path, q: Path)
    requires IsWalk(order) && PlainEntries(raw) && AddressableOrphans(raw, id) && Delete(raw, id, order).Ok?
    requires SessionOf(raw, p).Some? && SessionOf(Delete(raw, id, order).value, q).Some?
    requires NameAt("", p) == NameAt("", q)
    ensures p == q
  {
    AfterIsPruned(raw, id, order, q);
    SessionLeads(Table(raw), p, ParseProviders(raw));
    SessionLeads(Table(PruneTable(Table(raw), EntryKeys(raw), id)), q, ParseProviders(raw) - {id});
    LeftLeads(Table(raw), EntryKeys(raw), q, id);
    NameIsJoin(Table(raw), "", p);
    NameIsJoin(Table(raw), "", q);
    SplitJoin(p);
    SplitJoin(q);
  }

  /** The name of a path is removed exactly if the path ends at a topmost orphan. */
  lemma NameListedIff(raw: TableMap, id: string, order: Order, path: Path)
    requires IsWalk(order) && PlainEntries(raw) && AddressableOrphans(raw, id) && SessionOf(raw, path).Some?
    ensures NameAt("", path) in OrphanNames(Table(raw), order(EntryKeys(raw)), "", id, order)
       <==> Orphaned(Table(raw), path, id) && !BelowOrphan(Table(raw), path, id)
  {
    var keys := order(EntryKeys(raw));
    var paths := PathsOfNames(raw, id, order);
    assert Walks(keys, EntryKeys(raw));
    TopOrphanListed(Table(raw), keys, path, id, order);
    SessionLeads(Table(raw), path, ParseProviders(raw));
    NameIsJoin(Table(raw), "", path);
    SplitJoin(path);
    if path in paths {
      var i :| 0 <= i < |paths| && paths[i] == path;
      assert Named("", paths)[i] == Join(path);
    }
    if Join(path) in Named("", paths) {
      var i :| 0 <= i < |paths| && Named("", paths)[i] == Join(path);
      assert paths[i] in paths;
      SplitJoin(paths[i]);
    }
  }

  lemma DefaultAfter(raw: TableMap, id: string, order: Order)
    requires IsWalk(order) && AddressableOrphans(raw, id) && Delete(raw, id, order).Ok?
    ensures var before := GetStr(raw, "default_session");
      var after := GetStr(Delete(raw, id, order).value, "default_session");
      after == if before.Some? && before.value in OrphanNames(Table(raw), order(EntryKeys(raw)), "", id, order)
               then None else before
  {
    var t := DropProvider(raw, id).value;
    SameOrphans(raw, id, order);
    DroppedIsAddressable(raw, id);
    CascadePrunes(t, id, order);
    assert "default_session" !in EntryKeys(t);
  }

  /** `default_session` is set and names no session. */
  ghost predicate Dangles(raw: TableMap) {
    var default := GetStr(raw, "default_session");
    default.Some? && forall s :: !ResolvesTo(raw, (default.value, s))
  }

  lemma {:induction false} BelowIsOrphaned(v: Value, path: Path, id: string)
    requires v.Table? && BelowOrphan(v, path, id)
    ensures Orphaned(v, path, id)
    decreases path
  {
    if !IsOrphan(v.t[path[0]].t, id) {
      BelowIsOrphaned(v.t[path[0]], path[1..], id);
    }
  }

  /** A default that named a session dangles after the deletion if and only if that session stood
    * below an orphan, whose name alone is looked at, or is now hidden by a table above it that has
    * become a session; otherwise it is gone with its session, or names it still. */
  lemma DefaultDanglesIff(raw: TableMap, id: string, order: Order, path: Path)
    requires IsWalk(order) && PlainEntries(raw) && Delete(raw, id, order).Ok? && SessionOf(raw, path).Some?
    requires GetStr(raw, "default_session") == Some(NameAt("", path))
    ensures Dangles(Delete(raw, id, order).value)
       <==> BelowOrphan(Table(raw), path, id)
            || (!Orphaned(Table(raw), path, id) && Shadowed(Table(raw), path, id, ParseProviders(raw)))
  {
    var after := Delete(raw, id, order).value;
    forall k | k in EntryKeys(raw) ensures Addressable(raw[k], id) {
      PlainIsAddressable(raw[k], id);
    }
    DefaultAfter(raw, id, order);
    NameListedIff(raw, id, order, path);
    AfterIsPruned(raw, id, order, path);
    StaysReachable(Table(raw), EntryKeys(raw), path, id, ParseProviders(raw));
    if BelowOrphan(Table(raw), path, id) {
      BelowIsOrphaned(Table(raw), path, id);
    }
    var name := NameAt("", path);
    if SessionOf(after, path).Some? {
      assert ResolvesTo(after, (name, SessionOf(after, path).value));
    } else {
      forall s ensures !ResolvesTo(after, (name, s)) {
        if ResolvesTo(after, (name, s)) {
          var q :| SessionOf(after, q) == Some(s) && NameAt("", q) == name;
          NameFixesPath(raw, id, order, path, q);
        }
      }
    }
  }

  // ── A default that dangles ────────────────────────────────────────

  lemma SessionBelow(a: TableMap, b: TableMap)
    requires b == map["apikey" := Str("k"), "apibase" := Str("u"), "model" := Str("m")]
    requires a == map["provider" := Str("p"), "context_win" := Int(1), "b" := Table(b)]
    ensures SessionAt(Table(map["a" := Table(a)]), ["a", "b"], map[]).Some?
    ensures IsOrphan(a, "p") && TableKeys(a) == {"b"} && TableKeys(b) == {}
  {
    assert forall k | k in b :: k !in OPTIONAL;
    assert Inject(a, map[]) == a && Inject(b, map[]) == b;
    assert ParseSession(b).Some? && ParseSession(a).None?;
    assert ["a", "b"][1..] == ["b"];
  }

  lemma SameBelow(v: Value, w: Value, path: Path)
    requires v.Table? && w.Table? && path != [] && path[0] in v.t && path[0] in w.t && v.t[path[0]] == w.t[path[0]]
    ensures SessionAt(v, path, map[]) == SessionAt(w, path, map[])
  {
  }

  lemma OneEntry(raw: TableMap, a: TableMap)
    requires raw == map["default_session" := Str("a.b"), "providers" := Table(map["p" := Table(map[])]),
                        "a" := Table(a)]
    ensures EntryKeys(raw) == {"a"} && raw["a"] == Table(a) && ParseProviders(raw) == map[]
    ensures DropProvider(raw, "p").Some? && GetStr(raw, "default_session") == Some("a.b")
  {
    assert EntryKeys(raw) == {"a"};
    assert ParseProviders(raw) == map[];
  }

  lemma DanglesBelow(raw: TableMap, a: TableMap, order: Order, path: Path)
    requires IsWalk(order) && EntryKeys(raw) == {"a"} && raw["a"] == Table(a) && ParseProviders(raw) == map[]
    requires DropProvider(raw, "p").Some? && GetStr(raw, "default_session") == Some("a.b")
    requires PlainKeys(Table(a)) && IsOrphan(a, "p") && path == ["a", "b"]
    requires SessionAt(Table(map["a" := Table(a)]), path, map[]).Some?
    ensures SessionOf(raw, path).Some? && Delete(raw, "p", order).Ok?
    ensures Dangles(Delete(raw, "p", order).value)
  {
    SameBelow(Table(raw), Table(map["a" := Table(a)]), path);
    assert NameAt("", path) == "a.b";
    DefaultDanglesIff(raw, "p", order, path);
  }

  /** The default is the session `a.b`, and `a` above it is an entry that uses the provider: deleting the
    * provider removes `a` with all it holds and leaves the default. */
  lemma DefaultBelowOrphan(raw: TableMap, a: TableMap, b: TableMap, order: Order)
    requires IsWalk(order)
    requires b == map["apikey" := Str("k"), "apibase" := Str("u"), "model" := Str("m")]
    requires a == map["provider" := Str("p"), "context_win" := Int(1), "b" := Table(b)]
    requires raw == map["default_session" := Str("a.b"), "providers" := Table(map["p" := Table(map[])]),
                        "a" := Table(a)]
    ensures SessionOf(raw, ["a", "b"]).Some? && Delete(raw, "p", order).Ok?
    ensures Dangles(Delete(raw, "p", order).value)
  {
    SessionBelow(a, b);
    OneEntry(raw, a);
    assert PlainKeys(Table(b)) && PlainKeys(Table(a));
    DanglesBelow(raw, a, order, ["a", "b"]);
  }
}
