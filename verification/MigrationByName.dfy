/** What the migration keeps of the sessions as they are found, in order and by name, and what a
  * configuration must look like for that, whatever order the credentials are walked in. */
module MigrationByName {
  import opened Wrappers
  import opened Collections
  import opened MyKey
  import opened SessionPaths
  import opened ProviderMigration
  import opened MigrationMeaning

  /** The session `s` after the migration: the same, or with its credentials borrowed. */
  predicate SameSession(s: Session, r: Session, ids: map<Cred, string>) {
    r == s || ((s.apibase, s.apikey) in ids && r == s.(provider := Some(ids[(s.apibase, s.apikey)])))
  }

  predicate SameSessions(before: Found, after: Found, ids: map<Cred, string>) {
    && |before| == |after|
    && forall i | 0 <= i < |before| :: before[i].0 == after[i].0 && SameSession(before[i].1, after[i].1, ids)
  }

  /** No table that is rewritten loses a table: what is walked below it stays the same. */
  predicate KeepsTables(raw: TableMap, a: Assignment) {
    forall name | name in EntryKeys(raw) && CredOf(raw[name].t).Some? && CredOf(raw[name].t).value in a.ids ::
      !("provider" in raw[name].t && raw[name].t["provider"].Table?)
  }

  // ── In walking order ──────────────────────────────────────────────

  /** Where nothing claims a new id, the new providers make no difference. */
  lemma {:induction false} TableIsBlind(v: Value, name: string, named: map<string, Cred>, order: Order)
    requires v.Table? && Quiet(v, named.Keys)
    ensures CollectTable(v, name, Declared(named), order) == CollectTable(v, name, map[], order)
    decreases v, 1
  {
    InjectNothing(v.t);
    TableIsBlindIff(v.t, named);
    if ParseSession(v.t).None? {
      CollectIsBlind(v, order(TableKeys(v.t)), name, named, order);
    }
  }

  lemma {:induction false} CollectIsBlind(v: Value, keys: seq<string>, prefix: string, named: map<string, Cred>,
                                          order: Order)
    requires v.Table? && forall k | k in v.t && v.t[k].Table? :: Quiet(v.t[k], named.Keys)
    ensures Collect(v, keys, prefix, Declared(named), order) == Collect(v, keys, prefix, map[], order)
    decreases v, 0, |keys|
  {
    if keys != [] {
      var key := keys[0];
      if key in v.t && v.t[key].Table? {
        TableIsBlind(v.t[key], FullName(prefix, key), named, order);
      }
      CollectIsBlind(v, keys[1..], prefix, named, order);
    }
  }

  /** Only the sub-tables of a table are walked. */
  lemma {:induction false} CollectReadsTables(v: Value, w: Value, keys: seq<string>, prefix: string,
                                              providers: MyKey.Providers, order: Order)
    requires v.Table? && w.Table? && TableKeys(v.t) == TableKeys(w.t)
    requires forall k | k in TableKeys(v.t) :: v.t[k] == w.t[k]
    ensures Collect(v, keys, prefix, providers, order) == Collect(w, keys, prefix, providers, order)
    decreases keys
  {
    if keys != [] {
      var key := keys[0];
      assert key in TableKeys(v.t) <==> key in TableKeys(w.t);
      CollectReadsTables(v, w, keys[1..], prefix, providers, order);
    }
  }

  /** An entry that borrows its credentials back contributes what it did. */
  lemma BorrowerIsFound(v: Value, name: string, c: Cred, id: string, named: map<string, Cred>, order: Order)
    requires v.Table? && CredOf(v.t) == Some(c) && id in named && named[id] == c
    requires QuietRewrite(v.t, named.Keys) && !("provider" in v.t && v.t["provider"].Table?)
    ensures SameSessions(CollectTable(v, name, map[], order),
                         CollectTable(Table(Borrow(v.t, id)), name, Declared(named), order), map[c := id])
  {
    var t, w := v.t, Table(Borrow(v.t, id));
    BorrowGivesBack(t, c, id, Declared(named));
    NamingAProvider(t, id);
    InjectNothing(t);
    if ParseSession(t).None? {
      CollectIsBlind(v, order(TableKeys(t)), name, named, order);
      assert TableKeys(w.t) == TableKeys(t);
      CollectReadsTables(v, w, order(TableKeys(t)), name, Declared(named), order);
    }
  }

  lemma EntryIsFound(v: Value, a: Assignment, name: string, order: Order)
    requires v.Table? && QuietEntry(v, a)
    requires CredOf(v.t).Some? && CredOf(v.t).value in a.ids ==> !("provider" in v.t && v.t["provider"].Table?)
    requires forall c | c in a.ids :: a.ids[c] in a.named && a.named[a.ids[c]] == c
    ensures SameSessions(CollectTable(v, name, map[], order),
                         CollectTable(Rewritten(v, a.ids), name, Declared(a.named), order), a.ids)
  {
    var c := CredOf(v.t);
    if c.Some? && c.value in a.ids {
      BorrowerIsFound(v, name, c.value, a.ids[c.value], a.named, order);
    } else {
      TableIsBlind(v, name, a.named, order);
    }
  }

  lemma SameAppend(a: Found, a': Found, b: Found, b': Found, ids: map<Cred, string>)
    requires SameSessions(a, a', ids) && SameSessions(b, b', ids)
    ensures SameSessions(a + b, a' + b', ids)
  {
  }

  lemma {:induction false} EntriesAreFound(raw: TableMap, after: TableMap, a: Assignment, keys: seq<string>,
                                           order: Order)
    requires forall k | k in keys :: k in EntryKeys(raw) && k in after && after[k] == Rewritten(raw[k], a.ids)
    requires forall c | c in a.ids :: a.ids[c] in a.named && a.named[a.ids[c]] == c
    requires Undisturbed(raw, a) && KeepsTables(raw, a)
    ensures SameSessions(Collect(Table(raw), keys, "", map[], order),
                         Collect(Table(after), keys, "", Declared(a.named), order), a.ids)
    decreases keys
  {
    if keys != [] {
      assert keys[0] in keys;
      EntryIsFound(raw[keys[0]], a, keys[0], order);
      EntriesAreFound(raw, after, a, keys[1..], order);
      SameAppend(CollectTable(raw[keys[0]], keys[0], map[], order),
                 CollectTable(after[keys[0]], keys[0], Declared(a.named), order),
                 Collect(Table(raw), keys[1..], "", map[], order),
                 Collect(Table(after), keys[1..], "", Declared(a.named), order), a.ids);
    }
  }

  /** If nothing is disturbed, the migration keeps the meaning of the configuration: the same sessions
    * under the same names in the same order, each with the same credentials and fields, whatever order
    * the hash map of credentials was walked in; only `provider` may now name where they come from. */
  lemma MigrationKeepsSessions(raw: TableMap, creds: seq<Cred>, order: Order)
    requires Enumerates(creds, raw) && IsWalk(order)
    requires Undisturbed(raw, Assign(raw, creds)) && KeepsTables(raw, Assign(raw, creds))
    ensures SameSessions(FindSessions(raw, order), FindSessions(Migrate(raw, creds), order), Assign(raw, creds).ids)
  {
    var after, a := Migrate(raw, creds), Assign(raw, creds);
    if after != raw {
      var keys := order(EntryKeys(raw));
      assert Walks(keys, EntryKeys(raw));
      AssignIsAssigned(raw, creds);
      ProvidersAreDeclared(raw, creds);
      EntriesAfter(raw, creds);
      EntriesAreFound(raw, after, a, keys, order);
    }
  }

  lemma KeptAtPath(raw: TableMap, creds: seq<Cred>, path: Path)
    requires Enumerates(creds, raw) && Undisturbed(raw, Assign(raw, creds))
    ensures var before, after := SessionOf(raw, path), SessionOf(Migrate(raw, creds), path);
      && (before.Some? <==> after.Some?)
      && (before.Some? ==> SameSession(before.value, after.value, Assign(raw, creds).ids))
  {
    if Migrate(raw, creds) != raw {
      MigrationKeepsIff(raw, creds);
      assert SessionOf(Migrate(raw, creds), path) == Expected(path, SessionOf(raw, path), Assign(raw, creds).ids);
    }
  }

  /** If nothing is disturbed, then whatever the migration replaces and however the tables are walked, every
    * session that was found is found under the same name, and no others are. */
  lemma MigrationKeepsFound(raw: TableMap, creds: seq<Cred>, order: Order, name: string, s: Session)
    requires Enumerates(creds, raw) && IsWalk(order) && Undisturbed(raw, Assign(raw, creds))
    ensures (name, s) in FindSessions(raw, order) ==>
              exists t :: (name, t) in FindSessions(Migrate(raw, creds), order)
                && SameSession(s, t, Assign(raw, creds).ids)
    ensures (name, s) in FindSessions(Migrate(raw, creds), order) ==>
              exists t :: (name, t) in FindSessions(raw, order) && SameSession(t, s, Assign(raw, creds).ids)
  {
    var after := Migrate(raw, creds);
    FoundIffAtPath(raw, order, (name, s));
    FoundIffAtPath(after, order, (name, s));
    if (name, s) in FindSessions(raw, order) {
      var path :| SessionOf(raw, path) == Some(s) && NameAt("", path) == name;
      KeptAtPath(raw, creds, path);
      var t := SessionOf(after, path).value;
      FoundIffAtPath(after, order, (name, t));
      assert ResolvesTo(after, (name, t));
    }
    if (name, s) in FindSessions(after, order) {
      var path :| SessionOf(after, path) == Some(s) && NameAt("", path) == name;
      KeptAtPath(raw, creds, path);
      var t := SessionOf(raw, path).value;
      FoundIffAtPath(raw, order, (name, t));
      assert ResolvesTo(raw, (name, t));
    }
  }

  // ── By name ───────────────────────────────────────────────────────

  lemma {:induction false} InsertKeepsSame(m: map<string, Session>, n: map<string, Session>, before: Found,
                                           after: Found, ids: map<Cred, string>)
    requires SameSessions(before, after, ids)
    requires m.Keys == n.Keys && forall name | name in m :: SameSession(m[name], n[name], ids)
    ensures Insert(m, before).Keys == Insert(n, after).Keys
    ensures forall name | name in Insert(m, before) ::
      SameSession(Insert(m, before)[name], Insert(n, after)[name], ids)
    decreases before
  {
    if before != [] {
      InsertKeepsSame(m[before[0].0 := before[0].1], n[after[0].0 := after[0].1], before[1..], after[1..], ids);
    }
  }

  /** The same sessions by name, up to where their credentials come from. */
  predicate SameByName(before: map<string, Session>, after: map<string, Session>, ids: map<Cred, string>) {
    before.Keys == after.Keys && forall name | name in before :: SameSession(before[name], after[name], ids)
  }

  lemma MigrationKeepsMeaning(raw: TableMap, creds: seq<Cred>, order: Order)
    requires Enumerates(creds, raw) && IsWalk(order)
    requires Undisturbed(raw, Assign(raw, creds)) && KeepsTables(raw, Assign(raw, creds))
    ensures SameByName(Sessions(raw, order), Sessions(Migrate(raw, creds), order), Assign(raw, creds).ids)
  {
    var after, ids := Migrate(raw, creds), Assign(raw, creds).ids;
    MigrationKeepsSessions(raw, creds, order);
    InsertKeepsSame(map[], map[], FindSessions(raw, order), FindSessions(after, order), ids);
  }

  // ── Conditions on the file alone ──────────────────────────────────

  /** No table of an entry names an id that some walk of the credentials may give out. */
  ghost predicate NamesNoCandidate(raw: TableMap, v: Value) {
    v.Table? ==>
      && ("provider" in v.t ==> v.t["provider"].Str? && !IsCandidate(raw, v.t["provider"].s))
      && forall k | k in v.t :: NamesNoCandidate(raw, v.t[k])
  }

  lemma {:induction false} NoCandidateIsQuiet(raw: TableMap, v: Value, ids: set<string>)
    requires v.Table? && NamesNoCandidate(raw, v) && forall id | id in ids :: IsCandidate(raw, id)
    ensures Quiet(v, ids)
  {
    forall k | k in v.t && v.t[k].Table? ensures Quiet(v.t[k], ids) {
      NoCandidateIsQuiet(raw, v.t[k], ids);
    }
  }

  lemma NoCandidateIsUndisturbed(raw: TableMap, creds: seq<Cred>)
    requires Enumerates(creds, raw) && forall name | name in EntryKeys(raw) :: NamesNoCandidate(raw, raw[name])
    ensures Undisturbed(raw, Assign(raw, creds)) && KeepsTables(raw, Assign(raw, creds))
  {
    var a := Assign(raw, creds);
    forall id | id in a.named ensures IsCandidate(raw, id) {
      IdsAreCandidates(raw, creds, id);
    }
    forall name | name in EntryKeys(raw) ensures QuietEntry(raw[name], a) {
      var t := raw[name].t;
      NoCandidateIsQuiet(raw, raw[name], a.named.Keys);
      NamingAProvider(t, if ProviderRef(t).Some? then ProviderRef(t).value else "");
      if "provider" in t {
        assert t["provider" := t["provider"]] == t;
      } else {
        assert t - {"provider"} == t;
      }
    }
  }

  /** If no entry names a candidate for one of the new ids, the migration keeps all sessions. */
  lemma MigrationKeepsUnclaimed(raw: TableMap, creds: seq<Cred>, order: Order)
    requires Enumerates(creds, raw) && IsWalk(order)
    requires forall name | name in EntryKeys(raw) :: NamesNoCandidate(raw, raw[name])
    ensures SameByName(Sessions(raw, order), Sessions(Migrate(raw, creds), order), Assign(raw, creds).ids)
  {
    NoCandidateIsUndisturbed(raw, creds);
    MigrationKeepsMeaning(raw, creds, order);
  }

  predicate NoProviderKey(v: Value) {
    v.Table? ==> "provider" !in v.t && forall k | k in v.t :: NoProviderKey(v.t[k])
  }

  lemma {:induction false} NoKeyNoCandidate(raw: TableMap, v: Value)
    requires NoProviderKey(v)
    ensures NamesNoCandidate(raw, v)
  {
    if v.Table? {
      forall k | k in v.t ensures NamesNoCandidate(raw, v.t[k]) {
        NoKeyNoCandidate(raw, v.t[k]);
      }
    }
  }

  /** The configurations the migration is for, from before there were providers: no entry has a
    * `provider` key anywhere.  All their sessions are kept. */
  lemma MigrationKeepsOldFiles(raw: TableMap, creds: seq<Cred>, order: Order)
    requires Enumerates(creds, raw) && IsWalk(order)
    requires forall name | name in EntryKeys(raw) :: NoProviderKey(raw[name])
    ensures SameByName(Sessions(raw, order), Sessions(Migrate(raw, creds), order), Assign(raw, creds).ids)
  {
    forall name | name in EntryKeys(raw) ensures NamesNoCandidate(raw, raw[name]) {
      NoKeyNoCandidate(raw, raw[name]);
    }
    MigrationKeepsUnclaimed(raw, creds, order);
  }

  // ── What is disturbed otherwise ───────────────────────────────────

  lemma EntryOf(raw: TableMap, name: string)
    requires name in EntryKeys(raw)
    ensures SessionOf(raw, [name]) == ParseSession(Inject(raw[name].t, ParseProviders(raw)))
  {
    assert [name][1..] == [];
    assert SessionAt(raw[name], [name][1..], ParseProviders(raw)) == None;
  }

  lemma NewSessionIsFound(raw: TableMap, order: Order, name: string)
    requires IsWalk(order) && name in EntryKeys(raw) && SessionOf(raw, [name]).Some?
    ensures exists s :: (name, s) in FindSessions(raw, order)
  {
    var s := SessionOf(raw, [name]).value;
    assert NameAt("", [name]) == name;
    FoundIffAtPath(raw, order, (name, s));
  }

  /** An entry that is no session but names one of the new ids becomes one, with credentials that
    * are not its own, if credentials are what it lacks. */
  lemma ClaimedIdAddsSession(raw: TableMap, creds: seq<Cred>, order: Order, name: string)
    requires Enumerates(creds, raw) && IsWalk(order) && Migrate(raw, creds) != raw
    requires name in EntryKeys(raw) && Claims(raw[name].t, Assign(raw, creds).named.Keys)
    ensures SessionOf(raw, [name]).None? && SessionOf(Migrate(raw, creds), [name]).Some?
    ensures exists s :: (name, s) in FindSessions(Migrate(raw, creds), order)
  {
    var after, a := Migrate(raw, creds), Assign(raw, creds);
    ProvidersAreDeclared(raw, creds);
    EntriesAfter(raw, creds);
    EntryOf(raw, name);
    EntryOf(after, name);
    InjectNothing(raw[name].t);
    TableIsBlindIff(raw[name].t, a.named);
    assert CredOf(raw[name].t).None?;
    NewSessionIsFound(after, order, name);
  }

  lemma StemOfHost()
    ensures Stem("h") == "h"
  {
    assert AfterScheme("h") == None;
    assert UpToPath("h") == ['h'] + UpToPath([]) == "h";
    assert AfterLastAt("h") == AfterLastAt([]) + ['h'] == "h";
    assert Sanitize("h") == "h";
  }

  lemma ClaimingTable(t: TableMap)
    requires t == map["provider" := Str("h"), "apikey" := Str("x"), "model" := Str("m")]
    ensures Claims(t, {"h"}) && CredOf(t).None?
  {
    assert Completed(t) == t["apibase" := Str("")];
    assert forall k | k in t["apibase" := Str("")] :: k !in OPTIONAL;
  }

  lemma TwoHolders(raw: TableMap, e: TableMap, t: TableMap, c: Cred)
    requires CredOf(e) == Some(c) && CredOf(t).None?
    requires raw == map["a" := Table(e), "b" := Table(e), "c" := Table(t)]
    ensures EntryKeys(raw) == {"a", "b", "c"} && Holders(raw, c) == {"a", "b"} && "providers" !in raw
  {
    assert {"a", "b", "c"} !! RESERVED;
  }

  /** The smallest such configuration: `a` and `b` share their credentials, `c` names the host. */
  lemma ClaimingEntry(raw: TableMap, e: TableMap, t: TableMap, c: Cred)
    requires c == ("h", "k") && CredOf(e) == Some(c)
    requires t == map["provider" := Str("h"), "apikey" := Str("x"), "model" := Str("m")]
    requires raw == map["a" := Table(e), "b" := Table(e), "c" := Table(t)]
    ensures Enumerates([c], raw) && Migrate(raw, [c]) != raw && "c" in EntryKeys(raw)
    ensures Claims(raw["c"].t, Assign(raw, [c]).named.Keys)
  {
    ClaimingTable(t);
    TwoHolders(raw, e, t, c);
    StemOfHost();
    OnlyOneId(raw, c, [c]);
    MigratesExactlyIfNeeded(raw, [c]);
  }

  lemma OnlyOneId(raw: TableMap, c: Cred, creds: seq<Cred>)
    requires Shared(raw, c) && creds == [c]
    ensures Assign(raw, creds).named.Keys == {Stem(c.0)}
  {
    assert creds[..0] == [];
  }

  /** An entry with shared credentials whose `provider` is no text, and that is otherwise complete, is
    * no session before and one afterwards: its `provider` is replaced. */
  lemma ReplacedProviderAddsSession(raw: TableMap, creds: seq<Cred>, order: Order, name: string)
    requires Enumerates(creds, raw) && IsWalk(order) && Migrate(raw, creds) != raw
    requires name in EntryKeys(raw) && CredOf(raw[name].t).Some? && Shared(raw, CredOf(raw[name].t).value)
    requires "provider" in raw[name].t && !raw[name].t["provider"].Str?
    requires ParseSession(raw[name].t - {"provider"}).Some?
    ensures SessionOf(raw, [name]).None? && SessionOf(Migrate(raw, creds), [name]).Some?
    ensures exists s :: (name, s) in FindSessions(Migrate(raw, creds), order)
  {
    var after, a, t := Migrate(raw, creds), Assign(raw, creds), raw[name].t;
    var c := CredOf(t).value;
    AssignIsAssigned(raw, creds);
    ProvidersAreDeclared(raw, creds);
    EntriesAfter(raw, creds);
    EntryOf(raw, name);
    EntryOf(after, name);
    InjectNothing(t);
    BorrowGivesBack(t, c, a.ids[c], Declared(a.named));
    NamingAProvider(t, a.ids[c]);
    NewSessionIsFound(after, order, name);
  }

  /** A session in a table at the `provider` of an entry with shared credentials is lost: the table is
    * overwritten with the new id. */
  lemma OverwrittenProviderLosesSession(raw: TableMap, creds: seq<Cred>, name: string, path: Path)
    requires Enumerates(creds, raw) && Migrate(raw, creds) != raw
    requires name in EntryKeys(raw) && CredOf(raw[name].t).Some? && Shared(raw, CredOf(raw[name].t).value)
    requires |path| >= 2 && path[0] == name && path[1] == "provider" && SessionOf(raw, path).Some?
    ensures SessionOf(Migrate(raw, creds), path).None?
  {
    var after, a, t := Migrate(raw, creds), Assign(raw, creds), raw[name].t;
    var c := CredOf(t).value;
    AssignIsAssigned(raw, creds);
    ProvidersAreDeclared(raw, creds);
    EntriesAfter(raw, creds);
    BelowBorrower(raw[name], c, a.ids[c], a.named, path[1..]);
  }
}
