/** The one-time migration that moves credentials repeated across model entries into shared
  * `[providers.<id>]` tables. */
module ProviderMigration {
  import opened Wrappers
  import opened Collections
  import opened Names
  import opened MyKey

  /** An API base URL and an API key. */
  type Cred = (string, string)

  function CredOf(t: TableMap): (c: Option<Cred>) {
    match (GetStr(t, "apibase"), GetStr(t, "apikey"))
    case (Some(base), Some(key)) => Some((base, key))
    case _ => None
  }

  /** The top-level entries with exactly these credentials. */
  function Holders(raw: TableMap, c: Cred): set<string> {
    set name | name in EntryKeys(raw) && CredOf(raw[name].t) == Some(c)
  }

  predicate Shared(raw: TableMap, c: Cred) {
    |Holders(raw, c)| >= 2
  }

  /** `creds` is some walk of the hash map of counts. */
  predicate Enumerates(creds: seq<Cred>, raw: TableMap) {
    && Distinct(creds)
    && (forall c | c in creds :: Holders(raw, c) != {})
    && (forall name | name in EntryKeys(raw) && CredOf(raw[name].t).Some? :: CredOf(raw[name].t).value in creds)
  }

  // ── Provider ids ──────────────────────────────────────────────────

  /** What follows the first "://", or everything. */
  function AfterScheme(s: string): Option<string> {
    if |s| < 3 then None
    else if s[0] == ':' && s[1] == '/' && s[2] == '/' then Some(s[3..])
    else AfterScheme(s[1..])
  }

  function UpToPath(s: string): string {
    if s == [] || s[0] in "/?#" then [] else [s[0]] + UpToPath(s[1..])
  }

  function AfterLastAt(s: string): string {
    if s == [] || s[|s| - 1] == '@' then [] else AfterLastAt(s[..|s| - 1]) + [s[|s| - 1]]
  }

  predicate IsSafe(c: char) {
    'a' <= c <= 'z' || 'A' <= c <= 'Z' || '0' <= c <= '9' || c == '-' || c == '_'
  }

  function TrimLeft(s: string): (r: string)
    ensures forall c | c in r :: c in s
  {
    if s != [] && s[0] == '_' then TrimLeft(s[1..]) else s
  }

  function TrimRight(s: string): (r: string)
    ensures forall c | c in r :: c in s
  {
    if s != [] && s[|s| - 1] == '_' then TrimRight(s[..|s| - 1]) else s
  }

  function Sanitize(s: string): (r: string)
    ensures |r| == |s| && forall i | 0 <= i < |s| :: r[i] == if IsSafe(s[i]) then s[i] else '_'
    ensures forall c | c in r :: IsSafe(c)
  {
    seq(|s|, i requires 0 <= i < |s| => if IsSafe(s[i]) then s[i] else '_')
  }

  /** The endpoint host, made safe for a TOML key. */
  function Stem(apibase: string): (stem: string)
    ensures stem != "" && forall c | c in stem :: IsSafe(c)
  {
    var rest := match AfterScheme(apibase) case Some(r) => r case None => apibase;
    var base := TrimRight(TrimLeft(Sanitize(AfterLastAt(UpToPath(rest)))));
    if base == "" then "provider" else base
  }

  lemma {:induction false} SchemeEnds(scheme: string, rest: string)
    requires ':' !in scheme
    ensures AfterScheme(scheme + "://" + rest) == Some(rest)
    decreases |scheme|
  {
    var s := scheme + "://" + rest;
    if scheme == "" {
      assert s == "://" + rest;
      assert s[3..] == rest;
    } else {
      SchemeEnds(scheme[1..], rest);
      assert s[1..] == scheme[1..] + "://" + rest;
    }
  }

  lemma {:induction false} PathBegins(authority: string, path: string)
    requires forall c | c in authority :: c !in "/?#"
    requires path == "" || path[0] in "/?#"
    ensures UpToPath(authority + path) == authority
  {
    if authority == "" {
      assert authority + path == path;
    } else {
      assert (authority + path)[0] == authority[0] && (authority + path)[1..] == authority[1..] + path;
      PathBegins(authority[1..], path);
    }
  }

  lemma {:induction false} UserEnds(user: string, host: string)
    requires '@' !in host && (user == "" || user[|user| - 1] == '@')
    ensures AfterLastAt(user + host) == host
    decreases |host|
  {
    if host == "" {
      assert user + host == user;
    } else {
      var n := |host| - 1;
      assert (user + host)[|user + host| - 1] == host[n] && (user + host)[..|user + host| - 1] == user + host[..n];
      UserEnds(user, host[..n]);
      assert host[..n] + [host[n]] == host;
    }
  }

  /** The stem of a URL is its host and port, with `_` for what is not safe in an id; user and password
    * before it and the path after it do not matter. */
  lemma StemIsHost(scheme: string, user: string, host: string, path: string, url: string)
    requires ':' !in scheme && (user == "" || user[|user| - 1] == '@') && (path == "" || path[0] in "/?#")
    requires (forall c | c in user + host :: c !in "/?#") && '@' !in host
    requires host != "" && forall i | i in {0, |host| - 1} :: IsSafe(host[i]) && host[i] != '_'
    requires url == scheme + "://" + (user + host + path)
    ensures |Stem(url)| == |host| && forall i | 0 <= i < |host| ::
      Stem(url)[i] == if 'a' <= host[i] <= 'z' || 'A' <= host[i] <= 'Z' || '0' <= host[i] <= '9' || host[i] == '-'
                      then host[i] else '_'
  {
    SchemeEnds(scheme, user + host + path);
    PathBegins(user + host, path);
    UserEnds(user, host);
    var safe := Sanitize(host);
    assert safe[0] == host[0] && safe[|host| - 1] == host[|host| - 1];
    assert TrimLeft(safe) == safe && TrimRight(safe) == safe;
  }

  /** The n-th id tried: the stem, then `stem_2`, `stem_3` … */
  function Candidate(stem: string, n: nat): string {
    if n <= 1 then stem else stem + "_" + Digits(n)
  }

  lemma CandidatesDiffer(stem: string, m: nat, n: nat)
    requires 1 <= m < n
    ensures Candidate(stem, m) != Candidate(stem, n)
  {
    if m > 1 && Candidate(stem, m) == Candidate(stem, n) {
      assert Digits(m) == Candidate(stem, m)[|stem| + 1..];
      assert Digits(n) == Candidate(stem, n)[|stem| + 1..];
      DigitsInjective(m, n);
    }
  }

  /** The first candidate from the n-th on that is not taken.  Candidates differ, so one that was
    * tried can be crossed off. */
  function FirstFree(stem: string, n: nat, taken: set<string>): (id: string)
    decreases |taken|
  {
    var id := Candidate(stem, n);
    if id in taken then FirstFree(stem, n + 1, taken - {id}) else id
  }

  function DeriveId(apibase: string, taken: set<string>): string {
    FirstFree(Stem(apibase), 1, taken)
  }

  /** Whatever is taken, the first free candidate is a candidate, is free, and none before it is. */
  lemma {:induction false} FirstFreeIsFree(stem: string, n: nat, taken: set<string>) returns (k: nat)
    requires n >= 1
    ensures k >= n && FirstFree(stem, n, taken) == Candidate(stem, k) && Candidate(stem, k) !in taken
    ensures forall j | n <= j < k :: Candidate(stem, j) in taken
    decreases |taken|
  {
    var id := Candidate(stem, n);
    if id in taken {
      k := FirstFreeIsFree(stem, n + 1, taken - {id});
      CandidatesDiffer(stem, n, k);
    } else {
      k := n;
    }
  }

  /** `derive_provider_id`: the search as a loop; it ends because the taken ids run out. */
  method DeriveProviderId(apibase: string, taken: TableMap) returns (id: string)
    ensures id == DeriveId(apibase, taken.Keys)
  {
    var stem := Stem(apibase);
    id := stem;
    var n := 1;
    ghost var left := taken.Keys;
    while id in taken
      invariant n >= 1 && id == Candidate(stem, n)
      invariant FirstFree(stem, n, left) == DeriveId(apibase, taken.Keys)
      invariant left <= taken.Keys
      invariant forall j | j >= n :: Candidate(stem, j) in taken ==> Candidate(stem, j) in left
      decreases |left|
    {
      forall j | j > n ensures Candidate(stem, j) != id {
        CandidatesDiffer(stem, n, j);
      }
      left := left - {id};
      n := n + 1;
      id := stem + "_" + Digits(n);
    }
  }

  // ── The rewriting ─────────────────────────────────────────────────

  function ProviderTable(c: Cred): Value {
    Table(map["apibase" := Str(c.0), "apikey" := Str(c.1)])
  }

  /** The two maps the migration builds: the id of each shared pair of credentials, and the
    * credentials of each id, which become the `[providers]` table. */
  datatype Assignment = Assignment(ids: map<Cred, string>, named: map<string, Cred>)

  function Assign(raw: TableMap, creds: seq<Cred>): (a: Assignment) {
    if creds == [] then Assignment(map[], map[])
    else
      var a, c := Assign(raw, creds[..|creds| - 1]), creds[|creds| - 1];
      if Shared(raw, c) then
        var id := DeriveId(c.0, a.named.Keys);
        Assignment(a.ids[c := id], a.named[id := c])
      else a
  }

  function Borrow(t: TableMap, id: string): TableMap {
    (t - {"apibase", "apikey"})["provider" := Str(id)]
  }

  /** An entry after the migration. */
  function Rewritten(v: Value, ids: map<Cred, string>): (r: Value)
    requires v.Table?
    ensures r.Table?
  {
    match CredOf(v.t)
    case Some(c) => if c in ids then Table(Borrow(v.t, ids[c])) else v
    case None => v
  }

  function ProvidersTable(named: map<string, Cred>): TableMap {
    map id | id in named :: ProviderTable(named[id])
  }

  function Entries(raw: TableMap, ids: map<Cred, string>): (r: TableMap) {
    map k | k in raw :: if k in EntryKeys(raw) then Rewritten(raw[k], ids) else raw[k]
  }

  function Migrate(raw: TableMap, creds: seq<Cred>): (r: TableMap) {
    var a := Assign(raw, creds);
    if "providers" in raw || a.ids == map[] then raw
    else Entries(raw, a.ids)["providers" := Table(ProvidersTable(a.named))]
  }

  // ── What the ids are ──────────────────────────────────────────────

  /** The walked credentials that are shared have ids, and the new table holds exactly the
    * credentials of each id. */
  predicate Assigned(raw: TableMap, creds: seq<Cred>, a: Assignment) {
    && (forall c | c in a.ids :: c in creds && Shared(raw, c) && a.ids[c] in a.named && a.named[a.ids[c]] == c)
    && (forall c | c in creds && Shared(raw, c) :: c in a.ids)
    && (forall id | id in a.named :: a.named[id] in a.ids && a.ids[a.named[id]] == id)
  }

  lemma AssignedStep(raw: TableMap, rest: seq<Cred>, a: Assignment, c: Cred, id: string)
    requires Assigned(raw, rest, a) && c !in rest && Shared(raw, c) && id !in a.named
    ensures Assigned(raw, rest + [c], Assignment(a.ids[c := id], a.named[id := c]))
  {
    assert c in rest + [c];
  }

  lemma {:induction false} AssignIsAssigned(raw: TableMap, creds: seq<Cred>)
    requires Distinct(creds)
    ensures Assigned(raw, creds, Assign(raw, creds))
  {
    if creds != [] {
      var rest, c := creds[..|creds| - 1], creds[|creds| - 1];
      AssignIsAssigned(raw, rest);
      assert creds == rest + [c] && c !in rest;
      var a := Assign(raw, rest);
      if Shared(raw, c) {
        var k := FirstFreeIsFree(Stem(c.0), 1, a.named.Keys);
        AssignedStep(raw, rest, a, c, DeriveId(c.0, a.named.Keys));
      }
    }
  }

  // ── What the migration achieves ───────────────────────────────────

  lemma EntriesAfter(raw: TableMap, creds: seq<Cred>)
    requires Migrate(raw, creds) != raw
    ensures EntryKeys(Migrate(raw, creds)) == EntryKeys(raw)
    ensures forall k | k in EntryKeys(raw) :: Migrate(raw, creds)[k] == Rewritten(raw[k], Assign(raw, creds).ids)
  {
  }

  /** It changes the file exactly if there is no `[providers]` table and some pair is repeated, as
    * `needs_provider_migration` says. */
  lemma MigratesExactlyIfNeeded(raw: TableMap, creds: seq<Cred>)
    requires Enumerates(creds, raw)
    ensures Migrate(raw, creds) != raw <==> "providers" !in raw && exists c | c in creds :: |Holders(raw, c)| >= 2
  {
    var a := Assign(raw, creds);
    AssignIsAssigned(raw, creds);
    if c :| c in creds && Shared(raw, c) {
      assert c in a.ids;
      if "providers" !in raw {
        assert "providers" in Migrate(raw, creds);
      }
    } else {
      assert forall c :: c !in a.ids;
    }
  }

  /** Afterwards no pair of credentials is written in two entries, every pair that was is declared
    * once under a safe id, and everything that is not an entry is as it was. */
  lemma MigrationDeduplicates(raw: TableMap, creds: seq<Cred>)
    requires Enumerates(creds, raw) && "providers" !in raw
    ensures var r, a := Migrate(raw, creds), Assign(raw, creds);
      && (forall c :: |Holders(r, c)| <= 1)
      && (forall c :: |Holders(raw, c)| >= 2 <==> c in a.ids)
      && (forall c | c in a.ids :: a.ids[c] in a.named && a.named[a.ids[c]] == c)
      && (forall k | k in raw && k !in EntryKeys(raw) :: k in r && r[k] == raw[k])
  {
    var r, a := Migrate(raw, creds), Assign(raw, creds);
    AssignIsAssigned(raw, creds);
    forall c ensures |Holders(raw, c)| >= 2 <==> c in a.ids {
      if Shared(raw, c) {
        SharedIsWalked(raw, creds, c);
      }
    }
    forall c ensures |Holders(r, c)| <= 1 {
      if r != raw {
        HoldersAfter(raw, creds, c);
      }
      assert !Shared(r, c);
    }
  }

  /** An entry whose credentials are in no other stays as it is. */
  lemma UnsharedStays(raw: TableMap, creds: seq<Cred>, name: string)
    requires Enumerates(creds, raw) && name in EntryKeys(raw)
    requires CredOf(raw[name].t).Some? ==> |Holders(raw, CredOf(raw[name].t).value)| < 2
    ensures var r := Migrate(raw, creds); name in r && r[name] == raw[name]
  {
    AssignIsAssigned(raw, creds);
  }

  lemma SharedIsWalked(raw: TableMap, creds: seq<Cred>, c: Cred)
    requires Enumerates(creds, raw) && Shared(raw, c)
    ensures c in creds
  {
    var name :| name in Holders(raw, c);
    assert name in EntryKeys(raw) && CredOf(raw[name].t).value in creds;
  }

  lemma InlineAfter(v: Value, ids: map<Cred, string>, c: Cred)
    requires v.Table? && CredOf(Rewritten(v, ids).t) == Some(c)
    ensures CredOf(v.t) == Some(c) && c !in ids
  {
  }

  lemma HoldersAfter(raw: TableMap, creds: seq<Cred>, c: Cred)
    requires Enumerates(creds, raw) && Migrate(raw, creds) != raw
    ensures !Shared(Migrate(raw, creds), c)
  {
    var r, ids := Migrate(raw, creds), Assign(raw, creds).ids;
    EntriesAfter(raw, creds);
    forall name | name in Holders(r, c) ensures name in Holders(raw, c) && c !in ids {
      InlineAfter(raw[name], ids, c);
    }
    SubsetIsSmaller(Holders(r, c), Holders(raw, c));
    if Shared(raw, c) {
      SharedIsWalked(raw, creds, c);
      AssignIsAssigned(raw, creds);
      assert Holders(r, c) == {};
    }
  }

  /** The id is one that some walk may give to credentials that are shared. */
  ghost predicate IsCandidate(raw: TableMap, id: string) {
    exists c, n :: Shared(raw, c) && id == Candidate(Stem(c.0), n)
  }

  lemma {:induction false} IdsAreCandidates(raw: TableMap, creds: seq<Cred>, id: string)
    requires id in Assign(raw, creds).named
    ensures IsCandidate(raw, id)
  {
    var rest, c := creds[..|creds| - 1], creds[|creds| - 1];
    if id in Assign(raw, rest).named {
      IdsAreCandidates(raw, rest, id);
    } else {
      var k := FirstFreeIsFree(Stem(c.0), 1, Assign(raw, rest).named.Keys);
      assert Shared(raw, c) && id == Candidate(Stem(c.0), k);
    }
  }

  /** Every id is one that a TOML key can be written as without quotes. */
  lemma IdsAreSafe(raw: TableMap, creds: seq<Cred>, id: string)
    requires id in Assign(raw, creds).named
    ensures id != "" && forall c | c in id :: IsSafe(c)
  {
    IdsAreCandidates(raw, creds, id);
    var c, n :| Shared(raw, c) && id == Candidate(Stem(c.0), n);
  }

  /** A second run, whatever its walk, changes nothing. */
  lemma MigrationIsIdempotent(raw: TableMap, creds: seq<Cred>, again: seq<Cred>)
    requires Enumerates(creds, raw) && Enumerates(again, Migrate(raw, creds))
    ensures Migrate(Migrate(raw, creds), again) == Migrate(raw, creds)
  {
    if Migrate(raw, creds) == raw {
      MigratesExactlyIfNeeded(raw, creds);
      MigratesExactlyIfNeeded(raw, again);
      if c :| c in again && Shared(raw, c) {
        SharedIsWalked(raw, creds, c);
      }
    }
  }

  // ── The same, as the program does it ──────────────────────────────

  /** Count one more entry. */
  function CountEntry(raw: TableMap, name: string, counts: map<Cred, nat>): map<Cred, nat> {
    if name in EntryKeys(raw) then
      match CredOf(raw[name].t)
      case Some(c) => counts[c := (if c in counts then counts[c] else 0) + 1]
      case None => counts
    else counts
  }

  function Counts(raw: TableMap, names: seq<string>): (counts: map<Cred, nat>) {
    if names == [] then map[] else CountEntry(raw, names[|names| - 1], Counts(raw, names[..|names| - 1]))
  }

  function HeldIn(raw: TableMap, names: seq<string>, c: Cred): set<string> {
    set name | name in names && name in Holders(raw, c)
  }

  lemma HeldStep(raw: TableMap, rest: seq<string>, name: string, c: Cred)
    requires name !in rest
    ensures HeldIn(raw, rest + [name], c) == HeldIn(raw, rest, c) + (if name in Holders(raw, c) then {name} else {})
    ensures name !in HeldIn(raw, rest, c)
  {
  }

  lemma CountStep(raw: TableMap, name: string, counts: map<Cred, nat>, c: Cred)
    ensures var more := CountEntry(raw, name, counts);
      if name in Holders(raw, c) then c in more && more[c] == (if c in counts then counts[c] else 0) + 1
      else (c in more <==> c in counts) && (c in counts ==> more[c] == counts[c])
  {
  }

  /** The counts are the numbers of entries that hold each pair. */
  lemma {:induction false} CountsHolders(raw: TableMap, names: seq<string>, c: Cred)
    requires Distinct(names)
    ensures c in Counts(raw, names) <==> HeldIn(raw, names, c) != {}
    ensures c in Counts(raw, names) ==> Counts(raw, names)[c] == |HeldIn(raw, names, c)|
  {
    if names != [] {
      var rest, name := names[..|names| - 1], names[|names| - 1];
      CountsHolders(raw, rest, c);
      assert names == rest + [name] && name !in rest;
      HeldStep(raw, rest, name, c);
      CountStep(raw, name, Counts(raw, rest), c);
    }
  }

  lemma AllAreCounted(raw: TableMap, names: seq<string>, c: Cred)
    requires Walks(names, raw.Keys)
    ensures c in Counts(raw, names) <==> Holders(raw, c) != {}
    ensures c in Counts(raw, names) ==> Counts(raw, names)[c] == |Holders(raw, c)|
  {
    CountsHolders(raw, names, c);
    assert HeldIn(raw, names, c) == Holders(raw, c);
  }

  method CredentialCounts(raw: TableMap, names: seq<string>) returns (counts: map<Cred, nat>)
    requires Walks(names, raw.Keys)
    ensures forall c :: c in counts <==> Holders(raw, c) != {}
    ensures forall c | c in counts :: counts[c] == |Holders(raw, c)|
  {
    counts := map[];
    for i := 0 to |names|
      invariant counts == Counts(raw, names[..i])
    {
      var name := names[i];
      assert name in names && names[..i + 1][..i] == names[..i];
      if name !in RESERVED && raw[name].Table? {
        var c := CredOf(raw[name].t);
        if c.Some? {
          counts := counts[c.value := (if c.value in counts then counts[c.value] else 0) + 1];
        }
      }
    }
    assert names[..|names|] == names;
    forall c ensures c in counts <==> Holders(raw, c) != {}
      ensures c in counts ==> counts[c] == |Holders(raw, c)|
    {
      AllAreCounted(raw, names, c);
    }
  }

  method AnyShared(raw: TableMap, creds: seq<Cred>, counts: map<Cred, nat>) returns (any: bool)
    requires forall c | c in creds :: c in counts && counts[c] == |Holders(raw, c)|
    ensures any <==> exists c | c in creds :: Shared(raw, c)
  {
    for i := 0 to |creds|
      invariant forall j | 0 <= j < i :: !Shared(raw, creds[j])
    {
      if counts[creds[i]] >= 2 {
        assert creds[i] in creds && Shared(raw, creds[i]);
        return true;
      }
    }
    any := false;
  }

  method NeedsProviderMigration(raw: TableMap, names: seq<string>, creds: seq<Cred>) returns (needed: bool)
    requires Walks(names, raw.Keys) && Enumerates(creds, raw)
    ensures needed <==> Migrate(raw, creds) != raw
  {
    MigratesExactlyIfNeeded(raw, creds);
    if "providers" in raw {
      return false;
    }
    var counts := CredentialCounts(raw, names);
    needed := AnyShared(raw, creds, counts);
  }

  method AssignProviderIds(raw: TableMap, creds: seq<Cred>, counts: map<Cred, nat>)
    returns (ids: map<Cred, string>, providers: TableMap)
    requires forall c | c in creds :: c in counts && counts[c] == |Holders(raw, c)|
    ensures ids == Assign(raw, creds).ids && providers == ProvidersTable(Assign(raw, creds).named)
  {
    ids, providers := map[], map[];
    for i := 0 to |creds|
      invariant ids == Assign(raw, creds[..i]).ids
      invariant providers == ProvidersTable(Assign(raw, creds[..i]).named)
    {
      var c := creds[i];
      assert creds[..i + 1][..i] == creds[..i] && c in creds;
      if counts[c] >= 2 {
        var id := DeriveProviderId(c.0, providers);
        assert providers.Keys == Assign(raw, creds[..i]).named.Keys;
        ids, providers := ids[c := id], providers[id := ProviderTable(c)];
      }
    }
    assert creds[..|creds|] == creds;
  }

  function RewriteOne(t: TableMap, name: string, ids: map<Cred, string>): (r: TableMap) {
    if name in EntryKeys(t) then t[name := Rewritten(t[name], ids)] else t
  }

  function RewriteWalk(raw: TableMap, names: seq<string>, ids: map<Cred, string>): (t: TableMap) {
    if names == [] then raw else RewriteOne(RewriteWalk(raw, names[..|names| - 1], ids), names[|names| - 1], ids)
  }

  lemma {:induction false} WalkRewrites(raw: TableMap, names: seq<string>, ids: map<Cred, string>, k: string)
    requires Distinct(names)
    ensures var t := RewriteWalk(raw, names, ids);
      (k in t <==> k in raw) && (k in raw ==> t[k] == if k in names then Entries(raw, ids)[k] else raw[k])
  {
    if names != [] {
      var front, name := names[..|names| - 1], names[|names| - 1];
      assert names == front + [name] && name !in front;
      WalkRewrites(raw, front, ids, k);
    }
  }

  method RewriteEntries(raw: TableMap, names: seq<string>, ids: map<Cred, string>) returns (table: TableMap)
    requires Walks(names, raw.Keys)
    ensures table == Entries(raw, ids)
  {
    table := raw;
    for i := 0 to |names|
      invariant table == RewriteWalk(raw, names[..i], ids)
    {
      assert names[..i + 1][..i] == names[..i];
      var name := names[i];
      if name in table && name !in RESERVED && table[name].Table? {
        var t := table[name].t;
        var c := CredOf(t);
        if c.Some? && c.value in ids {
          table := table[name := Table(Borrow(t, ids[c.value]))];
        } else {
          assert table[name := table[name]] == table;
        }
      }
    }
    assert names[..|names|] == names;
    forall k ensures k in table <==> k in raw
      ensures k in raw ==> table[k] == Entries(raw, ids)[k]
    {
      WalkRewrites(raw, names, ids, k);
    }
  }

  /** `names` walks the configuration, `creds` the hash map of counts. */
  method ApplyProviderMigration(raw: TableMap, names: seq<string>, creds: seq<Cred>) returns (table: TableMap)
    requires Walks(names, raw.Keys) && Enumerates(creds, raw)
    ensures table == Migrate(raw, creds)
  {
    if "providers" in raw {
      return raw;
    }
    var counts := CredentialCounts(raw, names);
    var ids, providers := AssignProviderIds(raw, creds, counts);
    if ids == map[] {
      return raw;
    }
    table := RewriteEntries(raw, names, ids);
    table := table["providers" := Table(providers)];
  }
}
