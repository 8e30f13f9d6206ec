/** What the migration means for the sessions a configuration resolves to: at which paths it keeps them,
  * and that it keeps them all, in order, under conditions that can be read off the file. */
module MigrationMeaning {
  import opened Wrappers
  import opened MyKey
  import opened SessionPaths
  import opened ProviderMigration

  // ── The new providers ─────────────────────────────────────────────

  /** The providers the new table declares. */
  function Declared(named: map<string, Cred>): MyKey.Providers {
    map id | id in named :: Provider(named[id].0, named[id].1)
  }

  lemma ProvidersAreDeclared(raw: TableMap, creds: seq<Cred>)
    requires Migrate(raw, creds) != raw
    ensures ParseProviders(Migrate(raw, creds)) == Declared(Assign(raw, creds).named)
    ensures ParseProviders(raw) == map[]
  {
    var named := Assign(raw, creds).named;
    var pt := ProvidersTable(named);
    assert Migrate(raw, creds)["providers"] == Table(pt);
    forall id | id in pt
      ensures ParseProvider(pt[id]) == Some(Provider(named[id].0, named[id].1))
    {
      assert pt[id] == ProviderTable(named[id]);
    }
  }

  // ── One table ─────────────────────────────────────────────────────

  /** The table names one of the new ids and lacks one of the two credentials. */
  predicate Borrows(t: TableMap, ids: set<string>) {
    ProviderRef(t).Some? && ProviderRef(t).value in ids && !("apibase" in t && "apikey" in t)
  }

  /** The table with the credentials that it lacks left empty. */
  function Completed(t: TableMap): TableMap {
    var t1 := if "apibase" in t then t else t["apibase" := Str("")];
    if "apikey" in t1 then t1 else t1["apikey" := Str("")]
  }

  /** The table is no session, but would be one if it had credentials, and asks for new ones. */
  predicate Claims(t: TableMap, ids: set<string>) {
    ParseSession(t).None? && Borrows(t, ids) && ParseSession(Completed(t)).Some?
  }

  lemma InjectNothing(t: TableMap)
    ensures Inject(t, map[]) == t
  {
  }

  lemma SameButCredentials(t: TableMap, u: TableMap)
    requires Rest(t) == Rest(u) && GetStr(t, "model") == GetStr(u, "model")
    requires ("provider" in t <==> "provider" in u) && ("provider" in t ==> t["provider"] == u["provider"])
    requires GetStr(t, "apibase").Some? <==> GetStr(u, "apibase").Some?
    requires GetStr(t, "apikey").Some? <==> GetStr(u, "apikey").Some?
    ensures ParseSession(t).Some? <==> ParseSession(u).Some?
  {
    assert forall k | k in Rest(t) :: t[k] == Rest(t)[k];
    assert forall k | k in Rest(u) :: u[k] == Rest(u)[k];
  }

  /** What the new providers make of a table that is left alone: a session exactly if it claims one. */
  lemma TableIsBlindIff(t: TableMap, named: map<string, Cred>)
    ensures ParseSession(Inject(t, Declared(named))) == ParseSession(t) <==> !Claims(t, named.Keys)
  {
    var u := Inject(t, Declared(named));
    if Borrows(t, named.Keys) {
      assert Rest(u) == Rest(t) == Rest(Completed(t));
      SameButCredentials(u, Completed(t));
    } else {
      assert u == t;
    }
  }

  /** A rewritten table gets back the credentials that were taken out of it. */
  lemma BorrowGivesBack(t: TableMap, c: Cred, id: string, providers: MyKey.Providers)
    requires CredOf(t) == Some(c) && id in providers && providers[id] == Provider(c.0, c.1)
    ensures Inject(Borrow(t, id), providers) == t["provider" := Str(id)]
  {
    var b := Borrow(t, id);
    assert ProviderRef(b) == Some(id) && "apibase" !in b && "apikey" !in b;
    assert t["apibase"] == Str(c.0) && t["apikey"] == Str(c.1);
  }

  /** Naming a provider changes nothing else in a session, and makes one only where a `provider` that
    * is no text was all that stood in the way. */
  lemma NamingAProvider(t: TableMap, id: string)
    ensures ParseSession(t).Some? ==>
      ParseSession(t["provider" := Str(id)]) == Some(ParseSession(t).value.(provider := Some(id)))
    ensures ParseSession(t["provider" := Str(id)]).Some? <==> ParseSession(t - {"provider"}).Some?
  {
    var u, w := t["provider" := Str(id)], t - {"provider"};
    assert Rest(u) == Rest(t) == Rest(w);
    assert forall k | k in Rest(t) :: t[k] == u[k] == w[k];
    assert GetStr(u, "apikey") == GetStr(t, "apikey") == GetStr(w, "apikey");
    assert GetStr(u, "apibase") == GetStr(t, "apibase") == GetStr(w, "apibase");
    assert GetStr(u, "model") == GetStr(t, "model") == GetStr(w, "model");
  }

  // ── One path ──────────────────────────────────────────────────────

  /** No table that is walked from `v` claims one of the new ids. */
  predicate Quiet(v: Value, ids: set<string>)
    requires v.Table?
  {
    || ParseSession(v.t).Some?
    || (!Claims(v.t, ids) && forall k | k in v.t && v.t[k].Table? :: Quiet(v.t[k], ids))
  }

  lemma {:induction false} PathIsBlind(v: Value, named: map<string, Cred>, path: Path)
    requires v.Table? && (path != [] && path[0] in TableKeys(v.t) ==> Quiet(v.t[path[0]], named.Keys))
    ensures SessionAt(v, path, Declared(named)) == SessionAt(v, path, map[])
    decreases path
  {
    if path != [] && path[0] in TableKeys(v.t) {
      var sub := v.t[path[0]];
      InjectNothing(sub.t);
      TableIsBlindIff(sub.t, named);
      if ParseSession(sub.t).None? {
        PathIsBlind(sub, named, path[1..]);
      }
    }
  }

  lemma {:induction false} SomePathIsNot(v: Value, named: map<string, Cred>, key: string) returns (path: Path)
    requires v.Table? && key in TableKeys(v.t) && !Quiet(v.t[key], named.Keys)
    ensures path != [] && path[0] == key
    ensures SessionAt(v, path, Declared(named)) != SessionAt(v, path, map[])
    decreases v
  {
    var sub := v.t[key];
    path := [key];
    InjectNothing(sub.t);
    TableIsBlindIff(sub.t, named);
    assert SessionAt(sub, path[1..], map[]) == None;
    if !Claims(sub.t, named.Keys) {
      var k :| k in sub.t && sub.t[k].Table? && !Quiet(sub.t[k], named.Keys);
      var below := SomePathIsNot(sub, named, k);
      path := [key] + below;
      assert path[1..] == below;
    }
  }

  predicate HasSession(v: Value)
    requires v.Table?
  {
    ParseSession(v.t).Some? || exists k | k in v.t && v.t[k].Table? :: HasSession(v.t[k])
  }

  lemma {:induction false} NoSessionNoPath(v: Value, path: Path)
    requires v.Table? && path != [] && path[0] in TableKeys(v.t) && !HasSession(v.t[path[0]])
    ensures SessionAt(v, path, map[]).None?
    decreases path
  {
    InjectNothing(v.t[path[0]].t);
    if |path| > 1 && path[1] in TableKeys(v.t[path[0]].t) {
      NoSessionNoPath(v.t[path[0]], path[1..]);
    }
  }

  lemma {:induction false} SomePathHasSession(v: Value, key: string) returns (path: Path)
    requires v.Table? && key in TableKeys(v.t) && HasSession(v.t[key])
    ensures path != [] && path[0] == key && SessionAt(v, path, map[]).Some?
    decreases v
  {
    var sub := v.t[key];
    InjectNothing(sub.t);
    path := [key];
    if ParseSession(sub.t).None? {
      var k :| k in sub.t && sub.t[k].Table? && HasSession(sub.t[k]);
      var below := SomePathHasSession(sub, k);
      path := [key] + below;
      assert path[1..] == below;
    }
  }

  // ── One entry ─────────────────────────────────────────────────────

  /** An entry that is rewritten stays what it is: it is a session, or a `provider` that is no text is
    * not all that keeps it from being one, no sessions are in a table at its `provider`, which is
    * overwritten, and its other sub-tables are quiet. */
  predicate QuietRewrite(t: TableMap, ids: set<string>) {
    || ParseSession(t).Some?
    || (&& ParseSession(t - {"provider"}).None?
        && ("provider" in t && t["provider"].Table? ==> !HasSession(t["provider"]))
        && forall k | k in t && k != "provider" && t[k].Table? :: Quiet(t[k], ids))
  }

  predicate QuietEntry(v: Value, a: Assignment)
    requires v.Table?
  {
    if CredOf(v.t).Some? && CredOf(v.t).value in a.ids then QuietRewrite(v.t, a.named.Keys) else Quiet(v, a.named.Keys)
  }

  /** Only an entry itself is rewritten; then it names the provider of its credentials. */
  function Expected(path: Path, s: Option<Session>, ids: map<Cred, string>): (r: Option<Session>) {
    if |path| == 1 && s.Some? && (s.value.apibase, s.value.apikey) in ids
    then Some(s.value.(provider := Some(ids[(s.value.apibase, s.value.apikey)]))) else s
  }

  lemma SameTableSameSession(v: Value, w: Value, path: Path, providers: MyKey.Providers)
    requires v.Table? && w.Table?
    requires path != [] ==> (path[0] in TableKeys(v.t) <==> path[0] in TableKeys(w.t))
    requires path != [] && path[0] in TableKeys(v.t) ==> v.t[path[0]] == w.t[path[0]]
    ensures SessionAt(v, path, providers) == SessionAt(w, path, providers)
  {
  }

  /** A rewritten entry that is no session is searched as before, but for its `provider`. */
  lemma BelowBorrower(v: Value, c: Cred, id: string, named: map<string, Cred>, path: Path)
    requires v.Table? && CredOf(v.t) == Some(c)
    ensures path != [] && path[0] == "provider" ==> SessionAt(Table(Borrow(v.t, id)), path, Declared(named)).None?
    ensures path != [] && path[0] != "provider" ==>
      SessionAt(Table(Borrow(v.t, id)), path, map[]) == SessionAt(v, path, map[])
  {
    var w := Table(Borrow(v.t, id));
    assert forall k | k != "provider" :: k in TableKeys(v.t) <==> k in TableKeys(w.t);
    if path != [] && path[0] != "provider" {
      SameTableSameSession(v, w, path, map[]);
    }
  }

  lemma {:induction false} BorrowerBelowIsKept(v: Value, c: Cred, id: string, named: map<string, Cred>, path: Path)
    requires v.Table? && CredOf(v.t) == Some(c) && ParseSession(v.t).None? && QuietRewrite(v.t, named.Keys)
    ensures SessionAt(Table(Borrow(v.t, id)), path, Declared(named)) == SessionAt(v, path, map[])
  {
    var w := Table(Borrow(v.t, id));
    BelowBorrower(v, c, id, named, path);
    if path != [] && path[0] == "provider" {
      if path[0] in TableKeys(v.t) {
        NoSessionNoPath(v, path);
      }
    } else {
      PathIsBlind(w, named, path);
    }
  }

  lemma BorrowerIsKept(v: Value, w: Value, a: Assignment, c: Cred, path: Path)
    requires v.Table? && w.Table? && path != [] && path[0] in TableKeys(v.t) && CredOf(v.t[path[0]].t) == Some(c)
    requires c in a.ids && a.ids[c] in a.named && a.named[a.ids[c]] == c && QuietRewrite(v.t[path[0]].t, a.named.Keys)
    requires path[0] in w.t && w.t[path[0]] == Table(Borrow(v.t[path[0]].t, a.ids[c]))
    ensures SessionAt(w, path, Declared(a.named)) == Expected(path, SessionAt(v, path, map[]), a.ids)
  {
    var t := v.t[path[0]].t;
    InjectNothing(t);
    BorrowGivesBack(t, c, a.ids[c], Declared(a.named));
    NamingAProvider(t, a.ids[c]);
    if ParseSession(t).None? {
      BorrowerBelowIsKept(v.t[path[0]], c, a.ids[c], a.named, path[1..]);
    }
  }

  lemma BorrowerShowsBelow(v: Value, c: Cred, id: string, named: map<string, Cred>) returns (below: Path)
    requires v.Table? && CredOf(v.t) == Some(c) && !QuietRewrite(v.t, named.Keys)
    requires ParseSession(v.t - {"provider"}).None?
    ensures below != []
    ensures SessionAt(Table(Borrow(v.t, id)), below, Declared(named)) != SessionAt(v, below, map[])
  {
    var w := Table(Borrow(v.t, id));
    if "provider" in v.t && v.t["provider"].Table? && HasSession(v.t["provider"]) {
      below := SomePathHasSession(v, "provider");
    } else {
      var k :| k in v.t && k != "provider" && v.t[k].Table? && !Quiet(v.t[k], named.Keys);
      below := SomePathIsNot(w, named, k);
    }
    BelowBorrower(v, c, id, named, below);
  }

  lemma BorrowerShows(v: Value, w: Value, a: Assignment, c: Cred, key: string) returns (path: Path)
    requires v.Table? && w.Table? && key in TableKeys(v.t) && CredOf(v.t[key].t) == Some(c)
    requires c in a.ids && a.ids[c] in a.named && a.named[a.ids[c]] == c && !QuietRewrite(v.t[key].t, a.named.Keys)
    requires key in w.t && w.t[key] == Table(Borrow(v.t[key].t, a.ids[c]))
    ensures path != [] && path[0] == key
    ensures SessionAt(w, path, Declared(a.named)) != Expected(path, SessionAt(v, path, map[]), a.ids)
  {
    var t := v.t[key].t;
    InjectNothing(t);
    BorrowGivesBack(t, c, a.ids[c], Declared(a.named));
    NamingAProvider(t, a.ids[c]);
    path := [key];
    assert SessionAt(v.t[key], path[1..], map[]) == None;
    if ParseSession(t - {"provider"}).None? {
      var below := BorrowerShowsBelow(v.t[key], c, a.ids[c], a.named);
      path := [key] + below;
      assert path[1..] == below;
    }
  }

  // ── The whole configuration, path by path ─────────────────────────

  predicate Undisturbed(raw: TableMap, a: Assignment) {
    forall name | name in EntryKeys(raw) :: QuietEntry(raw[name], a)
  }

  lemma EntryIsKept(v: Value, w: Value, a: Assignment, path: Path)
    requires v.Table? && w.Table? && path != [] && path[0] in TableKeys(v.t) && QuietEntry(v.t[path[0]], a)
    requires forall c | c in a.ids :: a.ids[c] in a.named && a.named[a.ids[c]] == c
    requires path[0] in w.t && w.t[path[0]] == Rewritten(v.t[path[0]], a.ids)
    ensures SessionAt(w, path, Declared(a.named)) == Expected(path, SessionAt(v, path, map[]), a.ids)
  {
    var c := CredOf(v.t[path[0]].t);
    if c.Some? && c.value in a.ids {
      BorrowerIsKept(v, w, a, c.value, path);
    } else {
      PathIsBlind(v, a.named, path);
      SameTableSameSession(v, w, path, Declared(a.named));
      OwnCredentials(v, path);
    }
  }

  lemma EntryShows(v: Value, w: Value, a: Assignment, key: string) returns (path: Path)
    requires v.Table? && w.Table? && key in TableKeys(v.t) && !QuietEntry(v.t[key], a)
    requires forall c | c in a.ids :: a.ids[c] in a.named && a.named[a.ids[c]] == c
    requires key in w.t && w.t[key] == Rewritten(v.t[key], a.ids)
    ensures path != [] && path[0] == key
    ensures SessionAt(w, path, Declared(a.named)) != Expected(path, SessionAt(v, path, map[]), a.ids)
  {
    var c := CredOf(v.t[key].t);
    if c.Some? && c.value in a.ids {
      path := BorrowerShows(v, w, a, c.value, key);
    } else {
      path := SomePathIsNot(v, a.named, key);
      SameTableSameSession(v, w, path, Declared(a.named));
      OwnCredentials(v, path);
    }
  }

  /** Before the migration a session at an entry has its own credentials. */
  lemma OwnCredentials(v: Value, path: Path)
    requires v.Table? && |path| >= 1
    ensures |path| == 1 && SessionAt(v, path, map[]).Some? ==>
      var s := SessionAt(v, path, map[]).value; CredOf(v.t[path[0]].t) == Some((s.apibase, s.apikey))
  {
    if path[0] in TableKeys(v.t) {
      InjectNothing(v.t[path[0]].t);
      assert |path| == 1 ==> SessionAt(v.t[path[0]], path[1..], map[]) == None;
    }
  }

  /** At every path the migration keeps what is there, with the provider named where an entry was
    * rewritten, if and only if it disturbs nothing: no table that is walked names a new id, lacks one
    * of the two credentials and otherwise deserialises, and no entry that is rewritten otherwise
    * deserialises with a `provider` that is no text, or has a session at or below it. */
  lemma MigrationKeepsIff(raw: TableMap, creds: seq<Cred>)
    requires Enumerates(creds, raw) && Migrate(raw, creds) != raw
    ensures var after, a := Migrate(raw, creds), Assign(raw, creds);
      (forall path :: SessionOf(after, path) == Expected(path, SessionOf(raw, path), a.ids)) <==> Undisturbed(raw, a)
  {
    var after, a := Migrate(raw, creds), Assign(raw, creds);
    AssignIsAssigned(raw, creds);
    ProvidersAreDeclared(raw, creds);
    EntriesAfter(raw, creds);
    if Undisturbed(raw, a) {
      forall path ensures SessionOf(after, path) == Expected(path, SessionOf(raw, path), a.ids) {
        if path != [] && path[0] in EntryKeys(raw) {
          EntryIsKept(Table(raw), Table(after), a, path);
        }
      }
    } else {
      var key :| key in EntryKeys(raw) && !QuietEntry(raw[key], a);
      var path := EntryShows(Table(raw), Table(after), a, key);
      assert SessionOf(after, path) != Expected(path, SessionOf(raw, path), a.ids);
    }
  }
}
