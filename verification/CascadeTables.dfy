/** What is left of a single table when the orphans in it are dropped, and whether that is a session. */
module CascadeTables {
  import opened Wrappers
  import opened MyKey
  import opened ProviderCascade

  /** An orphan, or a table that held orphans and nothing else. */
  predicate Vanishes(v: Value, id: string) {
    v.Table? && (IsOrphan(v.t, id) || (v.t != map[] && forall k | k in v.t :: Vanishes(v.t[k], id)))
  }

  lemma {:induction false} VanishesIff(v: Value, id: string)
    requires v.Table?
    ensures Pruned(v, id).None? <==> Vanishes(v, id)
  {
    var u := PruneTable(v, v.t.Keys, id);
    forall k | k in v.t ensures k !in u <==> Vanishes(v.t[k], id) {
      if v.t[k].Table? {
        VanishesIff(v.t[k], id);
      }
    }
    if u == map[] {
      assert forall k | k in v.t :: k !in u;
    } else {
      var k :| k in u;
      assert k in v.t;
    }
  }

  predicate IsText(t: TableMap, k: string) {
    k in t && t[k].Str?
  }

  predicate IsGone(t: TableMap, k: string, id: string) {
    k in t ==> Vanishes(t[k], id)
  }

  /** The provider the table names is another one, and there. */
  predicate Lends(t: TableMap, id: string, providers: Providers) {
    ProviderRef(t).Some? && ProviderRef(t).value in providers - {id}
  }

  /** What is left of an optional field deserialises. */
  predicate FieldLeft(name: string, v: Value, id: string) {
    || Vanishes(v, id)
    || (if name == "extra_headers" then v.Table? && forall k | k in v.t :: v.t[k].Str? || Vanishes(v.t[k], id)
        else FieldOk(name, v))
  }

  /** What is left of the table without the orphans in it makes a session. */
  predicate Usable(t: TableMap, id: string, providers: Providers) {
    && IsText(t, "model")
    && (IsText(t, "provider") || IsGone(t, "provider", id))
    && (IsText(t, "apibase") || (IsGone(t, "apibase", id) && Lends(t, id, providers)))
    && (IsText(t, "apikey") || (IsGone(t, "apikey", id) && Lends(t, id, providers)))
    && forall k | k in t && k in OPTIONAL :: FieldLeft(k, t[k], id)
  }

  /** The extra headers read like an orphan. */
  predicate HeadersLost(t: TableMap, id: string) {
    "extra_headers" in t && t["extra_headers"].Table? && IsOrphan(t["extra_headers"].t, id)
  }

  lemma FieldAfter(v: Value, k: string, id: string)
    requires v.Table? && k in v.t
    ensures var u := PruneTable(v, v.t.Keys, id);
      && (k in u <==> !Vanishes(v.t[k], id))
      && (k in u ==> if v.t[k].Table? then Pruned(v.t[k], id) == Some(u[k]) else u[k] == v.t[k])
  {
    if v.t[k].Table? {
      VanishesIff(v.t[k], id);
    }
  }

  lemma TextAfter(v: Value, k: string, id: string)
    requires v.Table?
    ensures var u := PruneTable(v, v.t.Keys, id);
      GetStr(u, k) == GetStr(v.t, k) && (k !in u <==> IsGone(v.t, k, id))
  {
    if k in v.t {
      FieldAfter(v, k, id);
    }
  }

  lemma HeadersAfter(v: Value, id: string)
    requires v.Table? && !Vanishes(v, id)
    ensures FieldOk("extra_headers", Table(PruneTable(v, v.t.Keys, id))) <==> FieldLeft("extra_headers", v, id)
  {
    var u := PruneTable(v, v.t.Keys, id);
    forall k | k in v.t ensures (k in u ==> u[k].Str?) <==> v.t[k].Str? || Vanishes(v.t[k], id) {
      FieldAfter(v, k, id);
    }
    assert forall k | k in u :: k in v.t;
  }

  lemma OptionalAfter(v: Value, k: string, id: string)
    requires v.Table? && k in v.t && k in OPTIONAL
    ensures var u := PruneTable(v, v.t.Keys, id);
      (k in u ==> FieldOk(k, u[k])) <==> FieldLeft(k, v.t[k], id)
  {
    FieldAfter(v, k, id);
    if v.t[k].Table? && !Vanishes(v.t[k], id) && k == "extra_headers" {
      HeadersAfter(v.t[k], id);
    }
  }

  /** When a table deserialises, credentials included. */
  lemma ParsesIff(t: TableMap, providers: Providers)
    ensures ParseSession(Inject(t, providers)).Some? <==>
      && IsText(t, "model") && (IsText(t, "provider") || "provider" !in t)
      && (IsText(t, "apibase") || ("apibase" !in t && ProviderRef(t).Some? && ProviderRef(t).value in providers))
      && (IsText(t, "apikey") || ("apikey" !in t && ProviderRef(t).Some? && ProviderRef(t).value in providers))
      && forall k | k in t && k in OPTIONAL :: FieldOk(k, t[k])
  {
    var u := Inject(t, providers);
    assert Rest(u) == Rest(t);
    assert forall k | k in Rest(t) :: Rest(u)[k] == u[k] && Rest(t)[k] == t[k];
  }

  /** A table that is no orphan is a session afterwards exactly if it is usable. */
  lemma UsableIff(v: Value, id: string, providers: Providers)
    requires v.Table? && !IsOrphan(v.t, id)
    ensures ParseSession(Inject(PruneTable(v, v.t.Keys, id), providers - {id})).Some? <==> Usable(v.t, id, providers)
  {
    var u := PruneTable(v, v.t.Keys, id);
    TextAfter(v, "model", id);
    TextAfter(v, "provider", id);
    TextAfter(v, "apibase", id);
    TextAfter(v, "apikey", id);
    forall k | k in v.t && k in OPTIONAL
      ensures (k in u ==> FieldOk(k, u[k])) <==> FieldLeft(k, v.t[k], id)
    {
      OptionalAfter(v, k, id);
    }
    assert forall k | k in u :: k in v.t;
    ParsesIff(u, providers - {id});
  }

  /** Of the optional fields only the extra headers are a table, with nothing but text in it. */
  lemma TableFieldIsHeaders(name: string, v: Value)
    requires name in OPTIONAL && FieldOk(name, v) && v.Table?
    ensures name == "extra_headers" && forall k | k in v.t :: v.t[k].Str?
  {
  }

  lemma FieldStays(v: Value, k: string, id: string)
    requires v.Table? && k in v.t && k in OPTIONAL && FieldOk(k, v.t[k])
    ensures var u := PruneTable(v, v.t.Keys, id);
      if k == "extra_headers" && HeadersLost(v.t, id) then k !in u else k in u && u[k] == v.t[k]
  {
    FieldAfter(v, k, id);
    if v.t[k].Table? {
      var h := v.t[k];
      TableFieldIsHeaders(k, h);
      assert PruneTable(h, h.t.Keys, id) == h.t;
    }
  }

  lemma OnlyAfter(t: TableMap, u: TableMap, names: set<string>, lost: set<string>)
    requires u.Keys <= t.Keys
    requires forall k | k in t && k in names :: if k in lost then k !in u else k in u && u[k] == t[k]
    ensures Only(u, names) == Only(t, names) - lost
  {
  }

  function Lost(t: TableMap, id: string): set<string> {
    if HeadersLost(t, id) then {"extra_headers"} else {}
  }

  lemma RestAfter(v: Value, id: string, providers: Providers)
    requires v.Table? && forall k | k in v.t && k in OPTIONAL :: FieldOk(k, v.t[k])
    ensures Rest(PruneTable(v, v.t.Keys, id)) == Rest(v.t) - Lost(v.t, id)
  {
    var u, lost := PruneTable(v, v.t.Keys, id), Lost(v.t, id);
    forall k | k in v.t && k in OPTIONAL
      ensures if k in lost then k !in u else k in u && u[k] == v.t[k]
    {
      FieldStays(v, k, id);
    }
    assert forall k | k in u :: k in v.t;
    OnlyAfter(v.t, u, OPTIONAL, lost);
  }

  lemma InjectKeeps(t: TableMap, providers: Providers)
    ensures Rest(Inject(t, providers)) == Rest(t)
    ensures forall k | k != "apibase" && k != "apikey" :: GetStr(Inject(t, providers), k) == GetStr(t, k)
  {
  }

  lemma NoModelNoSession(t: TableMap, p: Providers)
    requires GetStr(t, "model").None?
    ensures ParseSession(Inject(t, p)).None?
  {
    InjectKeeps(t, p);
  }

  lemma CredentialsStay(t: TableMap, u: TableMap, k: string, p: Providers, q: Providers)
    requires k == "apibase" || k == "apikey"
    requires GetStr(t, k) == GetStr(u, k) && (k in t <==> k in u) && ProviderRef(t) == ProviderRef(u)
    requires ProviderRef(t).Some? ==>
      var id := ProviderRef(t).value; (id in p <==> id in q) && (id in p ==> p[id] == q[id])
    ensures GetStr(Inject(t, p), k) == GetStr(Inject(u, q), k)
  {
  }

  lemma StaysUsable(v: Value, id: string, providers: Providers)
    requires v.Table? && !IsOrphan(v.t, id) && ParseSession(Inject(v.t, providers)).Some?
    ensures Usable(v.t, id, providers)
  {
    ParsesIff(v.t, providers);
    forall k | k in v.t && k in OPTIONAL ensures FieldLeft(k, v.t[k], id) {
      OptionalAfter(v, k, id);
      FieldStays(v, k, id);
    }
  }

  /** A session that is no orphan stays, with its credentials and with every field except extra
    * headers that read like an orphan. */
  lemma SessionStays(v: Value, id: string, providers: Providers)
    requires v.Table? && !IsOrphan(v.t, id) && ParseSession(Inject(v.t, providers)).Some?
    ensures var s := ParseSession(Inject(v.t, providers)).value;
      ParseSession(Inject(PruneTable(v, v.t.Keys, id), providers - {id})) == Some(s.(rest := s.rest - Lost(v.t, id)))
  {
    var u := PruneTable(v, v.t.Keys, id);
    ParsesIff(v.t, providers);
    TextAfter(v, "model", id);
    TextAfter(v, "provider", id);
    TextAfter(v, "apibase", id);
    TextAfter(v, "apikey", id);
    RestAfter(v, id, providers);
    InjectKeeps(v.t, providers);
    InjectKeeps(u, providers - {id});
    CredentialsStay(v.t, u, "apibase", providers, providers - {id});
    CredentialsStay(v.t, u, "apikey", providers, providers - {id});
    StaysUsable(v, id, providers);
    UsableIff(v, id, providers);
  }
}
