/** The model configuration file: a tree of TOML tables, and the sessions it resolves to. */
module MyKey {
  import opened Wrappers

  /** A parsed TOML value; floats and dates only by identity. */
  datatype Value =
    | Str(s: string)
    | Int(i: int)
    | Float(id: int)
    | Bool(b: bool)
    | Date(id: int)
    | Array(items: seq<Value>)
    | Table(t: TableMap)

  type TableMap = map<string, Value>

  const RESERVED: set<string> := {
    "default_session", "summary_model", "review_model", "memory_backend", "erme_idle_interval_secs", "tui",
    "router", "providers"}

  function GetStr(t: TableMap, k: string): Option<string> {
    if k in t && t[k].Str? then Some(t[k].s) else None
  }

  predicate LooksLikeSessionEntry(t: TableMap) {
    "model" in t || "apibase" in t || "context_win" in t
  }

  function ProviderRef(t: TableMap): Option<string> {
    GetStr(t, "provider")
  }

  // ── Deserialising one table ───────────────────────────────────────

  const OPTIONAL: set<string> := {
    "context_win", "max_tokens", "temperature", "api_mode", "reasoning_effort", "max_retries", "proxy", "verify",
    "timeout", "llm_nos", "base_delay", "spring_back", "extra_headers", "modalities"}

  predicate IsUnsigned(v: Value, bits32: bool) {
    v.Int? && 0 <= v.i && (bits32 ==> v.i < 0x1_0000_0000)
  }

  /** Whether an optional field of a session deserialises. */
  predicate FieldOk(name: string, v: Value) {
    if name in {"context_win", "timeout", "spring_back"} then IsUnsigned(v, false)
    else if name in {"max_tokens", "max_retries"} then IsUnsigned(v, true)
    else if name in {"temperature", "base_delay"} then v.Float? || v.Int?
    else if name == "api_mode" then v == Str("chat_completions") || v == Str("responses")
    else if name == "verify" then v.Bool?
    else if name == "llm_nos" then v.Array? && forall i | 0 <= i < |v.items| :: IsUnsigned(v.items[i], false)
    else if name == "modalities" then v.Array? && forall i | 0 <= i < |v.items| :: v.items[i].Str?
    else if name == "extra_headers" then v.Table? && forall k | k in v.t :: v.t[k].Str?
    else v.Str?
  }

  /** A model session; `rest` are the optional fields it sets. */
  datatype Session = Session(
    apikey: string, apibase: string, model: string, provider: Option<string>, rest: TableMap)

  function Only(t: TableMap, names: set<string>): TableMap {
    map k | k in t && k in names :: t[k]
  }

  function Rest(t: TableMap): TableMap {
    Only(t, OPTIONAL)
  }

  /** `try_into::<SessionConfig>`: unknown keys are ignored, known ones must have their type. */
  function ParseSession(t: TableMap): (r: Option<Session>) {
    match (GetStr(t, "apikey"), GetStr(t, "apibase"), GetStr(t, "model"))
    case (Some(key), Some(base), Some(model)) =>
      if ("provider" in t ==> t["provider"].Str?) && (forall k | k in Rest(t) :: FieldOk(k, t[k]))
      then Some(Session(key, base, model, ProviderRef(t), Rest(t)))
      else None
    case _ => None
  }

  datatype Provider = Provider(apibase: string, apikey: string)

  /** `try_into::<ProviderConfig>`: a base URL, and a key that defaults to nothing. */
  function ParseProvider(v: Value): (r: Option<Provider>) {
    if !v.Table? then None
    else
      match GetStr(v.t, "apibase")
      case None => None
      case Some(base) =>
        if "apikey" !in v.t then Some(Provider(base, ""))
        else if v.t["apikey"].Str? then Some(Provider(base, v.t["apikey"].s))
        else None
  }

  type Providers = map<string, Provider>

  /** The valid `[providers.<id>]` tables. */
  function ParseProviders(raw: TableMap): (p: Providers) {
    if "providers" in raw && raw["providers"].Table? then
      var pt := raw["providers"].t;
      map id | id in pt && ParseProvider(pt[id]).Some? :: ParseProvider(pt[id]).value
    else map[]
  }

  /** Fill the credentials an entry borrows; what the entry has itself wins. */
  function Inject(t: TableMap, providers: Providers): (r: TableMap) {
    match ProviderRef(t)
    case None => t
    case Some(id) =>
      if id !in providers then t
      else
        var t1 := if "apibase" in t then t else t["apibase" := Str(providers[id].apibase)];
        if "apikey" in t1 then t1 else t1["apikey" := Str(providers[id].apikey)]
  }

  /** An entry keeps all it has itself, and borrows exactly the credentials that it lacks. */
  lemma BorrowsWhatItLacks(t: TableMap, providers: Providers, id: string)
    requires ProviderRef(t) == Some(id) && id in providers
    ensures var r := Inject(t, providers);
      && r.Keys == t.Keys + {"apibase", "apikey"} && (forall k | k in t :: r[k] == t[k])
      && ("apibase" !in t ==> r["apibase"] == Str(providers[id].apibase))
      && ("apikey" !in t ==> r["apikey"] == Str(providers[id].apikey))
  {
  }

  /** One that names no provider, or an unknown one, borrows nothing. */
  lemma BorrowsNothing(t: TableMap, providers: Providers)
    requires ProviderRef(t).None? || ProviderRef(t).value !in providers
    ensures Inject(t, providers) == t
  {
  }

  lemma CredentialsAreRequired()
    ensures "apibase" !in OPTIONAL && "apikey" !in OPTIONAL
  {
  }

  lemma OnlyIs(t: TableMap, r: TableMap, names: set<string>)
    requires (forall k | k in r :: k in t || k !in names) && (forall k | k in t :: k in r && r[k] == t[k])
    ensures Only(r, names) == Only(t, names)
  {
  }

  lemma ParsesAs(r: TableMap, rest: TableMap)
    requires GetStr(r, "apikey").Some? && GetStr(r, "apibase").Some? && GetStr(r, "model").Some?
    requires ("provider" in r ==> r["provider"].Str?) && rest == Rest(r) && forall k | k in rest :: FieldOk(k, r[k])
    ensures ParseSession(r) == Some(Session(r["apikey"].s, r["apibase"].s, r["model"].s, ProviderRef(r), rest))
  {
  }

  lemma BorrowsAll(t: TableMap, providers: Providers, id: string)
    requires ProviderRef(t) == Some(id) && id in providers && "apikey" !in t && "apibase" !in t
    requires "model" in t && t["model"].Str? && forall k | k in Rest(t) :: FieldOk(k, t[k])
    ensures ParseSession(Inject(t, providers))
         == Some(Session(providers[id].apikey, providers[id].apibase, t["model"].s, Some(id), Rest(t)))
  {
    BorrowsWhatItLacks(t, providers, id);
    CredentialsAreRequired();
    OnlyIs(t, Inject(t, providers), OPTIONAL);
    ParsesAs(Inject(t, providers), Rest(t));
  }

  /** A provider table needs a base URL; its key may be missing, and then an entry without a key of its own
    * that names it has an empty one. */
  lemma ProviderWithoutKey(raw: TableMap, pt: TableMap, id: string, p: TableMap, t: TableMap)
    requires "providers" in raw && raw["providers"] == Table(pt) && id in pt && pt[id] == Table(p)
    requires "apibase" in p && p["apibase"].Str? && "apikey" !in p
    requires ProviderRef(t) == Some(id) && "apikey" !in t && "apibase" !in t
    requires "model" in t && t["model"].Str? && forall k | k in Rest(t) :: FieldOk(k, t[k])
    ensures ParseSession(Inject(t, ParseProviders(raw)))
         == Some(Session("", p["apibase"].s, t["model"].s, Some(id), Rest(t)))
  {
    assert ParseProvider(pt[id]) == Some(Provider(p["apibase"].s, ""));
    BorrowsAll(t, ParseProviders(raw), id);
  }

  /** A provider without a base URL that is text is none. */
  lemma NoProvider(raw: TableMap, pt: TableMap, id: string)
    requires "providers" in raw && raw["providers"] == Table(pt) && id in pt
    requires !pt[id].Table? || GetStr(pt[id].t, "apibase").None?
          || ("apikey" in pt[id].t && !pt[id].t["apikey"].Str?)
    ensures id !in ParseProviders(raw)
  {
  }

  // ── Walking the tree ──────────────────────────────────────────────

  /** How the sub-tables of a table are walked. */
  type Order = set<string> -> seq<string>

  function TableKeys(t: TableMap): set<string> {
    set k | k in t && t[k].Table?
  }

  /** The top-level tables that may be sessions. */
  function EntryKeys(raw: TableMap): set<string> {
    TableKeys(raw) - RESERVED
  }

  lemma EntriesAre(raw: TableMap, name: string)
    ensures name in EntryKeys(raw)
       <==> name in raw && raw[name].Table?
            && name !in {"default_session", "summary_model", "review_model", "memory_backend",
                         "erme_idle_interval_secs", "tui", "router", "providers"}
  {
  }

  function FullName(prefix: string, key: string): string {
    if prefix == "" then key else prefix + "." + key
  }

  type Found = seq<(string, Session)>

  /** What the table `v` called `name` contributes: it is a session if it deserialises; any other
    * table is searched further down. */
  function CollectTable(v: Value, name: string, providers: Providers, order: Order): (r: Found)
    requires v.Table?
    decreases v, 1
  {
    match ParseSession(Inject(v.t, providers))
    case Some(s) => [(name, s)]
    case None => Collect(v, order(TableKeys(v.t)), name, providers, order)
  }

  /** The sessions at and below the entries `keys` of the table `v`, in walking order. */
  function Collect(v: Value, keys: seq<string>, prefix: string, providers: Providers, order: Order): (r: Found)
    requires v.Table?
    decreases v, 0, |keys|
  {
    if keys == [] then []
    else
      (if keys[0] in v.t && v.t[keys[0]].Table?
       then CollectTable(v.t[keys[0]], FullName(prefix, keys[0]), providers, order) else [])
      + Collect(v, keys[1..], prefix, providers, order)
  }

  /** All sessions of a configuration in walking order. */
  function FindSessions(raw: TableMap, order: Order): (r: Found) {
    Collect(Table(raw), order(EntryKeys(raw)), "", ParseProviders(raw), order)
  }

  /** Add sessions to a map: later ones replace earlier ones of the same name. */
  function Insert(m: map<string, Session>, found: Found): (r: map<string, Session>)
    decreases found
  {
    if found == [] then m else Insert(m[found[0].0 := found[0].1], found[1..])
  }

  /** The sessions of a configuration by name. */
  function Sessions(raw: TableMap, order: Order): (m: map<string, Session>) {
    Insert(map[], FindSessions(raw, order))
  }

  lemma {:induction false} InsertAppend(m: map<string, Session>, a: Found, b: Found)
    ensures Insert(m, a + b) == Insert(Insert(m, a), b)
    decreases a
  {
    if a == [] {
      assert a + b == b;
    } else {
      InsertAppend(m[a[0].0 := a[0].1], a[1..], b);
      assert (a + b)[1..] == a[1..] + b;
    }
  }

  // ── The same, as the program does it ──────────────────────────────

  /** Add the sessions under `v` to `sessions`. */
  method CollectSessions(v: Value, keys: seq<string>, prefix: string, providers: Providers, order: Order,
                         sessions: map<string, Session>)
    returns (r: map<string, Session>)
    requires v.Table?
    ensures r == Insert(sessions, Collect(v, keys, prefix, providers, order))
    decreases v
  {
    r := sessions;
    assert keys[0..] == keys;
    for i := 0 to |keys|
      invariant Insert(sessions, Collect(v, keys, prefix, providers, order))
             == Insert(r, Collect(v, keys[i..], prefix, providers, order))
    {
      var key := keys[i];
      assert keys[i..][1..] == keys[i + 1..] && keys[i..][0] == key;
      if key in v.t && v.t[key].Table? {
        var sub, name := v.t[key], FullName(prefix, key);
        InsertAppend(r, CollectTable(sub, name, providers, order), Collect(v, keys[i + 1..], prefix, providers, order));
        match ParseSession(Inject(sub.t, providers)) {
          case Some(s) =>
            assert Insert(r[name := s], []) == r[name := s];
            r := r[name := s];
          case None =>
            r := CollectSessions(sub, order(TableKeys(sub.t)), name, providers, order, r);
        }
      } else {
        ghost var found := Collect(v, keys[i + 1..], prefix, providers, order);
        assert [] + found == found;
      }
    }
  }

  method FromFile(raw: TableMap, order: Order) returns (sessions: map<string, Session>)
    ensures sessions == Sessions(raw, order)
  {
    sessions := CollectSessions(Table(raw), order(EntryKeys(raw)), "", ParseProviders(raw), order, map[]);
  }
}
