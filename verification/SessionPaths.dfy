/** The sessions of a configuration by path: what stands where, whatever order the tables are walked in. */
module SessionPaths {
  import opened Wrappers
  import opened Collections
  import opened MyKey

  type Path = seq<string>

  /** An order walks each key once. */
  ghost predicate IsWalk(order: Order) {
    forall s: set<string> :: Walks(order(s), s)
  }

  /** The session at a path: every table on the way there fails to deserialise. */
  function SessionAt(v: Value, path: Path, providers: Providers): (s: Option<Session>)
    requires v.Table?
    decreases path
  {
    if path == [] || path[0] !in TableKeys(v.t) then None
    else
      match ParseSession(Inject(v.t[path[0]].t, providers))
      case Some(s) => if |path| == 1 then Some(s) else None
      case None => SessionAt(v.t[path[0]], path[1..], providers)
  }

  function NameAt(prefix: string, path: Path): string
    requires path != []
    decreases path
  {
    if |path| == 1 then FullName(prefix, path[0]) else NameAt(FullName(prefix, path[0]), path[1..])
  }

  lemma {:induction false} FoundIsAtPath(v: Value, keys: seq<string>, prefix: string, providers: Providers,
                                         order: Order, found: (string, Session)) returns (path: Path)
    requires v.Table? && found in Collect(v, keys, prefix, providers, order)
    ensures path != [] && path[0] in keys
    ensures SessionAt(v, path, providers) == Some(found.1) && NameAt(prefix, path) == found.0
    decreases v, |keys|
  {
    var key := keys[0];
    if found in Collect(v, keys[1..], prefix, providers, order) {
      path := FoundIsAtPath(v, keys[1..], prefix, providers, order, found);
    } else {
      var sub, name := v.t[key], FullName(prefix, key);
      assert found in CollectTable(sub, name, providers, order);
      if ParseSession(Inject(sub.t, providers)).Some? {
        path := [key];
      } else {
        var below := FoundIsAtPath(sub, order(TableKeys(sub.t)), name, providers, order, found);
        path := [key] + below;
        assert path[1..] == below;
      }
    }
  }

  lemma {:induction false} PathIsFound(v: Value, keys: seq<string>, prefix: string, providers: Providers,
                                       order: Order, path: Path)
    requires IsWalk(order) && v.Table? && path != [] && path[0] in keys && SessionAt(v, path, providers).Some?
    ensures (NameAt(prefix, path), SessionAt(v, path, providers).value) in Collect(v, keys, prefix, providers, order)
    decreases v, |keys|
  {
    var key := keys[0];
    if path[0] == key {
      var sub, name := v.t[key], FullName(prefix, key);
      if ParseSession(Inject(sub.t, providers)).None? {
        PathIsFound(sub, order(TableKeys(sub.t)), name, providers, order, path[1..]);
      }
      assert (NameAt(prefix, path), SessionAt(v, path, providers).value) in CollectTable(sub, name, providers, order);
    } else {
      PathIsFound(v, keys[1..], prefix, providers, order, path);
    }
  }

  /** The session that loading a configuration finds at a path. */
  function SessionOf(raw: TableMap, path: Path): (s: Option<Session>)
    ensures s.Some? ==> path != [] && path[0] in EntryKeys(raw)
  {
    if path == [] || path[0] !in EntryKeys(raw) then None else SessionAt(Table(raw), path, ParseProviders(raw))
  }

  ghost predicate ResolvesTo(raw: TableMap, found: (string, Session)) {
    exists path :: SessionOf(raw, path) == Some(found.1) && NameAt("", path) == found.0
  }

  /** The walk finds the sessions that stand at some path, under their dotted names, and no others. */
  lemma FoundIffAtPath(raw: TableMap, order: Order, found: (string, Session))
    requires IsWalk(order)
    ensures found in FindSessions(raw, order) <==> ResolvesTo(raw, found)
  {
    var keys := order(EntryKeys(raw));
    assert Walks(keys, EntryKeys(raw));
    if found in FindSessions(raw, order) {
      var path := FoundIsAtPath(Table(raw), keys, "", ParseProviders(raw), order, found);
      assert SessionOf(raw, path) == Some(found.1);
    }
    if ResolvesTo(raw, found) {
      var path :| SessionOf(raw, path) == Some(found.1) && NameAt("", path) == found.0;
      PathIsFound(Table(raw), keys, "", ParseProviders(raw), order, path);
    }
  }
}
