/** Canonicalisation of tool arguments: five ordered passes over a key/value map, driven by
  * alias tables, and then a clean-up of the keys whose values were moved.  The passes are
  * functions of the map, of the table, and of the order in which the map is walked. */
module ToolArgs {
  import opened Wrappers
  import opened Collections
  import opened Text

  /** A JSON value: a string, or anything else (which the passes only move). */
  datatype Json = Str(s: string) | NonString(id: int)

  type Object = map<string, Json>

  /** The arguments of a call: an object, or a bare value. */
  datatype Args = Obj(fields: Object) | Bare(value: Json)

  /** A canonical argument name and the aliases accepted for it. */
  datatype Group = Group(canon: string, aliases: seq<string>)

  // ── Keys and values ───────────────────────────────────────────────

  function Lower(c: char): char {
    if 'A' <= c <= 'Z' then c - 'A' + 'a' else c
  }

  predicate IsAlphanumeric(c: char) {
    'a' <= c <= 'z' || 'A' <= c <= 'Z' || '0' <= c <= '9'
  }

  /** Lower case, ASCII letters and digits only. */
  function NormKey(k: string): (n: string) {
    NormPrefix(k, |k|)
  }

  function NormPrefix(k: string, n: nat): (r: string)
    requires n <= |k|
  {
    if n == 0 then ""
    else NormPrefix(k, n - 1) + (if IsAlphanumeric(k[n - 1]) then [Lower(k[n - 1])] else "")
  }

  /** Already normalised: lower-case letters and digits. */
  ghost predicate IsNormal(s: string) {
    forall i | 0 <= i < |s| :: 'a' <= s[i] <= 'z' || '0' <= s[i] <= '9'
  }

  lemma {:induction false} NormalPrefix(s: string, n: nat)
    requires n <= |s| && IsNormal(s[..n])
    ensures NormPrefix(s, n) == s[..n]
  {
    if n > 0 {
      assert s[..n][..n - 1] == s[..n - 1] && s[..n][n - 1] == s[n - 1];
      NormalPrefix(s, n - 1);
    }
  }

  lemma NormalIsFixed(s: string)
    requires IsNormal(s)
    ensures NormKey(s) == s
  {
    assert s[..|s|] == s;
    NormalPrefix(s, |s|);
  }

  lemma {:induction false} NormPrefixAppend(a: string, b: string, s: string, n: nat)
    requires s == a + b && n <= |b|
    ensures NormPrefix(s, |a| + n) == NormKey(a) + NormPrefix(b, n)
    decreases n
  {
    if n == 0 {
      SamePrefixNorm(a, s, |a|);
      assert NormKey(a) + "" == NormKey(a);
    } else {
      NormPrefixAppend(a, b, s, n - 1);
      assert s[|a| + n - 1] == b[n - 1];
    }
  }

  lemma {:induction false} SamePrefixNorm(a: string, s: string, n: nat)
    requires n <= |a| && a <= s
    ensures NormPrefix(s, n) == NormPrefix(a, n)
  {
    if n > 0 {
      SamePrefixNorm(a, s, n - 1);
    }
  }

  /** Names are compared character by character: letters without their case, digits, and nothing else. */
  lemma NormKeyIs(a: string, b: string, c: char)
    ensures NormKey("") == "" && NormKey(a + b) == NormKey(a) + NormKey(b)
    ensures NormKey([c]) == if 'a' <= c <= 'z' || '0' <= c <= '9' then [c]
                            else if 'A' <= c <= 'Z' then [c - 'A' + 'a'] else ""
  {
    NormPrefixAppend(a, b, a + b, |b|);
    assert NormPrefix([c], 0) == "";
  }

  function LowerAll(s: string): (r: string) {
    seq(|s|, i requires 0 <= i < |s| => Lower(s[i]))
  }

  const LANGUAGES: seq<string> := [
    "bash", "sh", "shell", "zsh", "python", "python3", "py", "node", "javascript", "js", "powershell"]

  predicate IsLanguage(v: Json) {
    v.Str? && LowerAll(Trim(v.s)) in LANGUAGES
  }

  // ── Tables ────────────────────────────────────────────────────────

  predicate IsAlias(g: Group, norm: string) {
    exists a | a in g.aliases :: NormKey(a) == norm
  }

  predicate IsCanonical(groups: seq<Group>, k: string) {
    exists g | g in groups :: g.canon == k
  }

  /** A key that may hold the language: an alias of the first `type` group, or `type`. */
  predicate IsTypeNorm(groups: seq<Group>, norm: string) {
    norm == "type" || exists i | 0 <= i < |groups| ::
      groups[i].canon == "type" && (forall j | 0 <= j < i :: groups[j].canon != "type") && IsAlias(groups[i], norm)
  }

  /** A name the table knows, as an alias or in canonical form. */
  predicate IsKnown(groups: seq<Group>, norm: string) {
    exists g | g in groups :: IsAlias(g, norm) || NormKey(g.canon) == norm
  }

  // ── The passes ────────────────────────────────────────────────────

  /** What the passes change: the arguments, and the keys whose value was moved. */
  datatype State = State(out: Object, consumed: seq<string>)

  /** The first key of the walk that is among `good`. */
  function First(order: seq<string>, good: set<string>): (r: Option<string>)
    ensures r.Some? ==> r.value in good && r.value in order
    ensures r.None? ==> forall k | k in order :: k !in good
  {
    if order == [] then None
    else if order[0] in good then Some(order[0])
    else First(order[1..], good)
  }

  function Move(st: State, m: Object, k: string, canon: string, consume: bool): (r: State)
    requires k in m
  {
    State(st.out[canon := m[k]], if consume then st.consumed + [k] else st.consumed)
  }

  function TypeKeys(groups: seq<Group>, m: Object): set<string> {
    set k | k in m && IsTypeNorm(groups, NormKey(k)) && IsLanguage(m[k])
  }

  /** Pass 1: a type-like key holding a language name feeds `type`. */
  function TypePass(groups: seq<Group>, m: Object, order: seq<string>): (st: State) {
    var hit := First(order, TypeKeys(groups, m));
    if IsCanonical(groups, "type") && "type" !in m && hit.Some? then
      Move(State(m, []), m, hit.value, "type", NormKey(hit.value) != "type")
    else State(m, [])
  }

  function AliasKeys(groups: seq<Group>, g: Group, m: Object, consumed: seq<string>): set<string> {
    set k | k in m && k !in consumed && !IsCanonical(groups, k) && IsAlias(g, NormKey(k))
  }

  /** Pass 2 for one group: an alias feeds the canonical key the call omitted. */
  function AliasStep(groups: seq<Group>, g: Group, m: Object, order: seq<string>, st: State): (r: State) {
    var hit := First(order, AliasKeys(groups, g, m, st.consumed));
    if g.canon !in st.out && hit.Some? then Move(st, m, hit.value, g.canon, true) else st
  }

  /** Pass 2 for the first `n` groups of the table. */
  function AliasPass(groups: seq<Group>, n: nat, m: Object, order: seq<string>, st: State): (r: State)
    requires n <= |groups|
  {
    if n == 0 then st else AliasStep(groups, groups[n - 1], m, order, AliasPass(groups, n - 1, m, order, st))
  }

  function ToolKeys(toolNorm: string, m: Object, consumed: seq<string>): set<string> {
    set k | k in m && NormKey(k) == toolNorm && k !in consumed
  }

  /** Pass 3: the tool's own name used as the primary key. */
  function ToolPass(primary: string, toolNorm: string, m: Object, order: seq<string>, st: State): (r: State) {
    var hit := First(order, ToolKeys(toolNorm, m, st.consumed));
    if primary !in st.out && hit.Some? then Move(st, m, hit.value, primary, true) else st
  }

  function UnknownKeys(groups: seq<Group>, m: Object, consumed: seq<string>): set<string> {
    set k | k in m && k !in consumed && !IsKnown(groups, NormKey(k)) && m[k].Str? && NormKey(k) != ""
  }

  /** Pass 4: a lone unrecognised string feeds the primary key. */
  function LonePass(groups: seq<Group>, primary: string, m: Object, order: seq<string>, st: State): (r: State) {
    var unknown := UnknownKeys(groups, m, st.consumed);
    var hit := First(order, unknown);
    if primary !in st.out && |unknown| == 1 && hit.Some? then Move(st, m, hit.value, primary, true) else st
  }

  function OtherPath(primary: string): string {
    if primary == "path" then "file_path" else "path"
  }

  /** Pass 5: the two path names stand in for each other. */
  function PathPass(primary: string, st: State): (r: State) {
    if primary !in st.out && (primary == "path" || primary == "file_path") && OtherPath(primary) in st.out then
      st.(out := st.out[primary := st.out[OtherPath(primary)]])
    else st
  }

  function Passes(groups: seq<Group>, toolNorm: string, m: Object, order: seq<string>): (st: State)
    requires groups != []
  {
    var primary := groups[0].canon;
    var st := AliasPass(groups, |groups|, m, order, TypePass(groups, m, order));
    PathPass(primary, LonePass(groups, primary, m, order, ToolPass(primary, toolNorm, m, order, st)))
  }

  /** A name made redundant by a canonical key that is present. */
  predicate IsRedundant(groups: seq<Group>, toolNorm: string, out: Object, norm: string)
    requires groups != []
  {
    || (exists g | g in groups :: g.canon in out && IsAlias(g, norm))
    || (groups[0].canon in out && norm == toolNorm)
  }

  predicate IsKept(groups: seq<Group>, toolNorm: string, st: State, k: string)
    requires groups != []
  {
    k !in st.consumed && (IsCanonical(groups, k) || !IsRedundant(groups, toolNorm, st.out, NormKey(k)))
  }

  /** The clean-up: moved keys go, canonical keys stay, redundant names go. */
  function Retain(groups: seq<Group>, toolNorm: string, st: State): (out: Object)
    requires groups != []
  {
    map k | k in st.out && IsKept(groups, toolNorm, st, k) :: st.out[k]
  }

  function Canonical(groups: seq<Group>, toolNorm: string, m: Object, order: seq<string>): (out: Object)
    requires groups != []
  {
    Retain(groups, toolNorm, Passes(groups, toolNorm, m, order))
  }

  // ── What the tables must satisfy ──────────────────────────────────

  /** A canonical key that reads like a type key is `type`, or has no aliases of its own and
    * is not the primary key; the tool is not called like one of its canonical keys. */
  ghost predicate Protected(groups: seq<Group>, toolNorm: string) {
    && groups != []
    && (forall i | 0 <= i < |groups| && IsTypeNorm(groups, NormKey(groups[i].canon)) && groups[i].canon != "type" ::
          groups[i].aliases == [] && i != 0)
    && (forall i | 0 <= i < |groups| :: NormKey(groups[i].canon) != toolNorm)
  }

  // ── What the passes leave ─────────────────────────────────────────

  /** The call's own keys are untouched; any other key is canonical, one the passes may
    * insert, and holds one of the call's values. */
  ghost predicate SoundOut(groups: seq<Group>, m: Object, out: Object) {
    && (forall k | k in m :: k in out && out[k] == m[k])
    && (forall k | k in out && k !in m :: IsCanonical(groups, k) && Feeds(groups, k) && HasValue(m, out[k]))
  }

  ghost predicate HasValue(m: Object, v: Json) {
    exists j :: j in m && m[j] == v
  }

  /** Every consumed key had its value moved; a canonical one was moved to `type`. */
  ghost predicate SoundConsumed(groups: seq<Group>, m: Object, st: State) {
    && (forall k | k in st.consumed :: k in m && Moved(groups, m, st, k))
    && (forall k | k in st.consumed && IsCanonical(groups, k) :: MovedToType(groups, m, st.out, k))
  }

  /** The facts about the arguments after some of the passes. */
  ghost predicate Sound(groups: seq<Group>, m: Object, st: State) {
    SoundOut(groups, m, st.out) && SoundConsumed(groups, m, st)
  }

  /** The only canonical key that can disappear: it held a language, the call had no `type`,
    * and its value is now under `type`. */
  ghost predicate MovedToType(groups: seq<Group>, m: Object, out: Object, k: string) {
    && k in m && IsTypeNorm(groups, NormKey(k)) && k != "type" && "type" !in m && IsLanguage(m[k])
    && "type" in out && out["type"] == m[k]
  }

  /** A canonical key the passes may insert: `type`, the primary key, or one with aliases. */
  ghost predicate Feeds(groups: seq<Group>, k: string) {
    k == "type" || exists i | 0 <= i < |groups| :: groups[i].canon == k && (i == 0 || groups[i].aliases != [])
  }

  /** The value of `k` now sits under a canonical key that the call did not have. */
  ghost predicate Moved(groups: seq<Group>, m: Object, st: State, k: string)
  {
    k in m && exists c :: c in st.out && c !in m && IsCanonical(groups, c) && st.out[c] == m[k]
  }

  lemma MoveSound(groups: seq<Group>, m: Object, st: State, k: string, canon: string, consume: bool)
    requires Sound(groups, m, st) && k in m && canon !in st.out
    requires IsCanonical(groups, canon) && Feeds(groups, canon)
    requires consume && IsCanonical(groups, k) ==>
      IsTypeNorm(groups, NormKey(k)) && k != "type" && "type" !in m && IsLanguage(m[k]) && canon == "type"
    ensures Sound(groups, m, Move(st, m, k, canon, consume))
  {
    var r := Move(st, m, k, canon, consume);
    assert SoundOut(groups, m, r.out) by { assert HasValue(m, m[k]); }
    assert Grows(st, r);
    forall j | j in st.consumed ensures Moved(groups, m, r, j) {
      MovedGrows(groups, m, st, r, j);
    }
    assert Moved(groups, m, r, k) by { assert canon in r.out && canon !in m && r.out[canon] == m[k]; }
    forall j | j in r.consumed ensures j in st.consumed || (consume && j == k) {}
  }

  lemma MovedGrows(groups: seq<Group>, m: Object, st: State, r: State, j: string)
    requires Grows(st, r) && Moved(groups, m, st, j)
    ensures Moved(groups, m, r, j)
  {
    var c :| c in st.out && c !in m && IsCanonical(groups, c) && st.out[c] == m[j];
    assert c in r.out && r.out[c] == m[j];
  }

  lemma TypeIsNormal()
    ensures NormKey("type") == "type"
  {
    NormalIsFixed("type");
  }

  lemma FirstOfKeys(order: seq<string>, m: Object, good: set<string>)
    requires Walks(order, m.Keys) && good <= m.Keys
    ensures First(order, good).None? <==> good == {}
  {
    if First(order, good).None? {
      assert forall k | k in good :: k in m && k in order;
    }
  }

  lemma TypePassSound(groups: seq<Group>, m: Object, order: seq<string>)
    requires Walks(order, m.Keys)
    ensures Sound(groups, m, TypePass(groups, m, order))
    ensures IsCanonical(groups, "type") && "type" !in TypePass(groups, m, order).out ==> TypeKeys(groups, m) == {}
  {
    TypeIsNormal();
    FirstOfKeys(order, m, TypeKeys(groups, m));
    var hit := First(order, TypeKeys(groups, m));
    if IsCanonical(groups, "type") && "type" !in m && hit.Some? {
      MoveSound(groups, m, State(m, []), hit.value, "type", NormKey(hit.value) != "type");
    }
  }

  /** Later states keep what is there and move only further keys. */
  ghost predicate Grows(st: State, r: State) {
    && (forall k | k in st.out :: k in r.out && r.out[k] == st.out[k])
    && (forall k | k in st.consumed :: k in r.consumed)
  }

  lemma GrowsTransitive(a: State, b: State, c: State)
    requires Grows(a, b) && Grows(b, c)
    ensures Grows(a, c)
  {
  }

  /** Pass 2 has nothing left to do for this group. */
  ghost predicate AliasDone(groups: seq<Group>, g: Group, m: Object, st: State) {
    g.canon !in st.out ==> AliasKeys(groups, g, m, st.consumed) == {}
  }

  lemma AliasDoneGrows(groups: seq<Group>, g: Group, m: Object, st: State, r: State)
    requires Grows(st, r) && AliasDone(groups, g, m, st)
    ensures AliasDone(groups, g, m, r)
  {
    if g.canon !in r.out {
      assert AliasKeys(groups, g, m, r.consumed) <= AliasKeys(groups, g, m, st.consumed);
    }
  }

  lemma AliasStepSound(groups: seq<Group>, i: nat, m: Object, order: seq<string>, st: State)
    requires Walks(order, m.Keys) && Sound(groups, m, st) && i < |groups|
    ensures var r := AliasStep(groups, groups[i], m, order, st);
      Sound(groups, m, r) && Grows(st, r) && AliasDone(groups, groups[i], m, r)
  {
    var g := groups[i];
    var hit := First(order, AliasKeys(groups, g, m, st.consumed));
    FirstOfKeys(order, m, AliasKeys(groups, g, m, st.consumed));
    if g.canon !in st.out && hit.Some? {
      MoveSound(groups, m, st, hit.value, g.canon, true);
    }
  }

  ghost predicate AliasesDone(groups: seq<Group>, n: nat, m: Object, st: State)
    requires n <= |groups|
  {
    forall i | 0 <= i < n :: AliasDone(groups, groups[i], m, st)
  }

  lemma AliasesDoneGrows(groups: seq<Group>, n: nat, m: Object, st: State, r: State)
    requires n <= |groups| && Grows(st, r) && AliasesDone(groups, n, m, st)
    ensures AliasesDone(groups, n, m, r)
  {
    forall i | 0 <= i < n ensures AliasDone(groups, groups[i], m, r) {
      AliasDoneGrows(groups, groups[i], m, st, r);
    }
  }

  ghost predicate PassedAliases(groups: seq<Group>, n: nat, m: Object, st: State, r: State) {
    n <= |groups| && Sound(groups, m, r) && Grows(st, r) && AliasesDone(groups, n, m, r)
  }

  lemma AliasPassStart(groups: seq<Group>, m: Object, st: State)
    requires Sound(groups, m, st)
    ensures PassedAliases(groups, 0, m, st, st)
  {
  }

  lemma AliasPassStep(groups: seq<Group>, n: nat, m: Object, order: seq<string>, st: State, before: State)
    returns (r: State)
    requires Walks(order, m.Keys) && n < |groups|
    requires PassedAliases(groups, n, m, st, before)
    ensures r == AliasStep(groups, groups[n], m, order, before)
    ensures PassedAliases(groups, n + 1, m, st, r)
  {
    r := AliasStep(groups, groups[n], m, order, before);
    AliasStepSound(groups, n, m, order, before);
    GrowsTransitive(st, before, r);
    AliasesDoneGrows(groups, n, m, before, r);
  }

  lemma {:induction false} AliasPassSound(groups: seq<Group>, n: nat, m: Object, order: seq<string>, st: State)
    returns (r: State)
    requires Walks(order, m.Keys) && Sound(groups, m, st) && n <= |groups|
    ensures r == AliasPass(groups, n, m, order, st)
    ensures PassedAliases(groups, n, m, st, r)
  {
    AliasPassStart(groups, m, st);
    r := st;
    var i := 0;
    while i < n
      invariant i <= n
      invariant r == AliasPass(groups, i, m, order, st)
      invariant PassedAliases(groups, i, m, st, r)
    {
      r := AliasPassStep(groups, i, m, order, st, r);
      i := i + 1;
    }
  }

  /** Nothing is left to do for any pass. */
  ghost predicate Settled(groups: seq<Group>, toolNorm: string, m: Object, st: State)
    requires groups != []
  {
    var primary := groups[0].canon;
    && (IsCanonical(groups, "type") && "type" !in st.out ==> TypeKeys(groups, m) == {})
    && AliasesDone(groups, |groups|, m, st)
    && (primary !in st.out ==>
          && ToolKeys(toolNorm, m, st.consumed) == {}
          && |UnknownKeys(groups, m, st.consumed)| != 1
          && (primary == "path" || primary == "file_path" ==> OtherPath(primary) !in st.out))
  }

  lemma ToolPassSound(groups: seq<Group>, toolNorm: string, m: Object, order: seq<string>, st: State)
    requires Walks(order, m.Keys) && Sound(groups, m, st) && Protected(groups, toolNorm)
    ensures var primary := groups[0].canon;
      var r := ToolPass(primary, toolNorm, m, order, st);
      && Sound(groups, m, r) && Grows(st, r)
      && (primary !in r.out ==> ToolKeys(toolNorm, m, r.consumed) == {})
  {
    var primary := groups[0].canon;
    assert groups[0] in groups;
    var hit := First(order, ToolKeys(toolNorm, m, st.consumed));
    FirstOfKeys(order, m, ToolKeys(toolNorm, m, st.consumed));
    if primary !in st.out && hit.Some? {
      NotCanonical(groups, toolNorm, hit.value);
      MoveSound(groups, m, st, hit.value, primary, true);
    }
  }

  lemma NotCanonical(groups: seq<Group>, toolNorm: string, k: string)
    requires Protected(groups, toolNorm)
    ensures NormKey(k) == toolNorm || !IsKnown(groups, NormKey(k)) ==> !IsCanonical(groups, k)
  {
    if IsCanonical(groups, k) {
      var g :| g in groups && g.canon == k;
      var i :| 0 <= i < |groups| && groups[i] == g;
      assert NormKey(groups[i].canon) != toolNorm;
    }
  }

  lemma LonePassSound(groups: seq<Group>, toolNorm: string, m: Object, order: seq<string>, st: State)
    requires Walks(order, m.Keys) && Sound(groups, m, st) && Protected(groups, toolNorm)
    requires groups[0].canon !in st.out ==> ToolKeys(toolNorm, m, st.consumed) == {}
    ensures var primary := groups[0].canon;
      var r := LonePass(groups, primary, m, order, st);
      && Sound(groups, m, r) && Grows(st, r)
      && (primary !in r.out ==> r == st && |UnknownKeys(groups, m, r.consumed)| != 1)
  {
    var primary := groups[0].canon;
    assert groups[0] in groups;
    var hit := First(order, UnknownKeys(groups, m, st.consumed));
    FirstOfKeys(order, m, UnknownKeys(groups, m, st.consumed));
    if primary !in st.out && |UnknownKeys(groups, m, st.consumed)| == 1 {
      NotCanonical(groups, toolNorm, hit.value);
      MoveSound(groups, m, st, hit.value, primary, true);
    }
  }

  /** The last three passes, which all feed the primary key. */
  lemma PrimaryPassesSound(groups: seq<Group>, toolNorm: string, m: Object, order: seq<string>, st: State)
    requires Walks(order, m.Keys) && Sound(groups, m, st) && Protected(groups, toolNorm)
    ensures var primary := groups[0].canon;
      var r := PathPass(primary, LonePass(groups, primary, m, order, ToolPass(primary, toolNorm, m, order, st)));
      && Sound(groups, m, r) && Grows(st, r)
      && (primary !in r.out ==>
            && ToolKeys(toolNorm, m, r.consumed) == {}
            && |UnknownKeys(groups, m, r.consumed)| != 1
            && (primary == "path" || primary == "file_path" ==> OtherPath(primary) !in r.out))
  {
    var primary := groups[0].canon;
    assert groups[0] in groups;
    ToolPassSound(groups, toolNorm, m, order, st);
    var st3 := ToolPass(primary, toolNorm, m, order, st);
    LonePassSound(groups, toolNorm, m, order, st3);
    PathPassSound(groups, m, primary, LonePass(groups, primary, m, order, st3));
  }

  lemma PathPassSound(groups: seq<Group>, m: Object, primary: string, st: State)
    requires Sound(groups, m, st) && IsCanonical(groups, primary) && Feeds(groups, primary)
    ensures Sound(groups, m, PathPass(primary, st)) && Grows(st, PathPass(primary, st))
  {
    var r := PathPass(primary, st);
    if r != st {
      var v := st.out[OtherPath(primary)];
      assert HasValue(m, v) by {
        if OtherPath(primary) in m { assert m[OtherPath(primary)] == v; }
      }
      forall j | j in r.consumed ensures Moved(groups, m, r, j) {
        MovedGrows(groups, m, st, r, j);
      }
    }
  }

  lemma PassesSound(groups: seq<Group>, toolNorm: string, m: Object, order: seq<string>)
    requires Walks(order, m.Keys) && Protected(groups, toolNorm)
    ensures var st := Passes(groups, toolNorm, m, order);
      Sound(groups, m, st) && Settled(groups, toolNorm, m, st)
  {
    TypePassSound(groups, m, order);
    var st1 := TypePass(groups, m, order);
    var st2 := AliasPassSound(groups, |groups|, m, order, st1);
    PrimaryPassesSound(groups, toolNorm, m, order, st2);
    var st := Passes(groups, toolNorm, m, order);
    AliasesDoneGrows(groups, |groups|, m, st2, st);
  }

  // ── Idempotence ───────────────────────────────────────────────────

  /** A key of the result that the call did not have is canonical and no alias-like type key. */
  lemma KeptKeys(groups: seq<Group>, toolNorm: string, m: Object, st: State, k: string)
    requires Protected(groups, toolNorm) && Sound(groups, m, st) && k in Retain(groups, toolNorm, st)
    ensures k !in st.consumed
    ensures k !in m ==> IsCanonical(groups, k) && (k == "type" || !IsTypeNorm(groups, NormKey(k)))
    ensures IsCanonical(groups, k) ==> NormKey(k) != toolNorm && IsKnown(groups, NormKey(k))
  {
    if k !in m && k != "type" {
      var i :| 0 <= i < |groups| && groups[i].canon == k && (i == 0 || groups[i].aliases != []);
      assert !IsTypeNorm(groups, NormKey(groups[i].canon));
    }
    if IsCanonical(groups, k) {
      var g :| g in groups && g.canon == k;
      var i :| 0 <= i < |groups| && groups[i] == g;
      assert NormKey(groups[i].canon) != toolNorm;
    }
  }

  /** A canonical key that was present stays, unless it was moved, and then it has no aliases
    * and is not the primary key. */
  lemma LostCanonical(groups: seq<Group>, toolNorm: string, m: Object, st: State, i: nat)
    requires Protected(groups, toolNorm) && Sound(groups, m, st) && i < |groups|
    requires groups[i].canon in st.out && groups[i].canon !in Retain(groups, toolNorm, st)
    ensures groups[i].aliases == [] && i != 0 && groups[i].canon != "type"
  {
    var k := groups[i].canon;
    assert groups[i] in groups && IsCanonical(groups, k);
    assert k in st.consumed;
  }

  /** On its own result every pass finds nothing to do. */
  lemma SecondRunIsIdle(groups: seq<Group>, toolNorm: string, m: Object, st: State, order: seq<string>)
    requires Protected(groups, toolNorm) && Sound(groups, m, st) && Settled(groups, toolNorm, m, st)
    requires Walks(order, Retain(groups, toolNorm, st).Keys)
    ensures Passes(groups, toolNorm, Retain(groups, toolNorm, st), order) == State(Retain(groups, toolNorm, st), [])
  {
    var r := Retain(groups, toolNorm, st);
    var idle := State(r, []);
    assert TypePass(groups, r, order) == idle by {
      IdleTypePass(groups, toolNorm, m, st, order);
    }
    IdleAliasPass(groups, toolNorm, m, st, order, |groups|);
    IdlePrimaryPasses(groups, toolNorm, m, st, order);
  }

  /** Nothing in the result can feed a pass that could not be fed before. */
  lemma NoNewCandidates(groups: seq<Group>, toolNorm: string, m: Object, st: State, g: Group)
    requires Protected(groups, toolNorm) && Sound(groups, m, st)
    ensures var r := Retain(groups, toolNorm, st);
      && ("type" !in r ==> TypeKeys(groups, r) <= TypeKeys(groups, m))
      && AliasKeys(groups, g, r, []) <= AliasKeys(groups, g, m, st.consumed)
      && ToolKeys(toolNorm, r, []) <= ToolKeys(toolNorm, m, st.consumed)
  {
    var r := Retain(groups, toolNorm, st);
    forall k | k in r ensures k !in st.consumed && (k in m || (IsCanonical(groups, k) && NormKey(k) != toolNorm))
                              && (k in m || k == "type" || !IsTypeNorm(groups, NormKey(k)))
                              && (k in m ==> r[k] == m[k])
    {
      KeptKeys(groups, toolNorm, m, st, k);
    }
  }

  lemma IdleTypePass(groups: seq<Group>, toolNorm: string, m: Object, st: State, order: seq<string>)
    requires Protected(groups, toolNorm) && Sound(groups, m, st) && Settled(groups, toolNorm, m, st)
    ensures TypePass(groups, Retain(groups, toolNorm, st), order) == State(Retain(groups, toolNorm, st), [])
  {
    NoNewCandidates(groups, toolNorm, m, st, groups[0]);
    if IsCanonical(groups, "type") {
      assert "type" in st.out ==> IsKept(groups, toolNorm, st, "type");
    }
  }

  lemma {:induction false} IdleAliasPass(groups: seq<Group>, toolNorm: string, m: Object, st: State,
                                         order: seq<string>, n: nat)
    requires Protected(groups, toolNorm) && Sound(groups, m, st) && Settled(groups, toolNorm, m, st)
    requires n <= |groups|
    ensures var r := Retain(groups, toolNorm, st);
            AliasPass(groups, n, r, order, State(r, [])) == State(r, [])
  {
    if n > 0 {
      IdleAliasPass(groups, toolNorm, m, st, order, n - 1);
      var r, g := Retain(groups, toolNorm, st), groups[n - 1];
      NoNewCandidates(groups, toolNorm, m, st, g);
      assert AliasDone(groups, groups[n - 1], m, st);
      if g.canon in st.out && g.canon !in r {
        LostCanonical(groups, toolNorm, m, st, n - 1);
      }
    }
  }

  lemma IdlePrimaryPasses(groups: seq<Group>, toolNorm: string, m: Object, st: State, order: seq<string>)
    requires Protected(groups, toolNorm) && Sound(groups, m, st) && Settled(groups, toolNorm, m, st)
    ensures var r, primary := Retain(groups, toolNorm, st), groups[0].canon;
      && ToolPass(primary, toolNorm, r, order, State(r, [])) == State(r, [])
      && LonePass(groups, primary, r, order, State(r, [])) == State(r, [])
      && PathPass(primary, State(r, [])) == State(r, [])
  {
    var r, primary := Retain(groups, toolNorm, st), groups[0].canon;
    NoNewCandidates(groups, toolNorm, m, st, groups[0]);
    PrimaryStays(groups, toolNorm, m, st);
    if primary !in r {
      SameUnknown(groups, toolNorm, m, st);
    }
  }

  lemma PrimaryStays(groups: seq<Group>, toolNorm: string, m: Object, st: State)
    requires Protected(groups, toolNorm) && Sound(groups, m, st)
    ensures groups[0].canon in st.out <==> groups[0].canon in Retain(groups, toolNorm, st)
  {
    var k := groups[0].canon;
    assert groups[0] in groups && IsCanonical(groups, k);
    assert IsTypeNorm(groups, NormKey(groups[0].canon)) ==> groups[0].canon == "type";
  }

  /** Without the primary key, what was unrecognised still is: clean-up drops none of it. */
  lemma SameUnknown(groups: seq<Group>, toolNorm: string, m: Object, st: State)
    requires Protected(groups, toolNorm) && Sound(groups, m, st) && Settled(groups, toolNorm, m, st)
    requires groups[0].canon !in st.out
    ensures UnknownKeys(groups, Retain(groups, toolNorm, st), []) == UnknownKeys(groups, m, st.consumed)
  {
    var r := Retain(groups, toolNorm, st);
    forall k | k in UnknownKeys(groups, r, []) ensures k in UnknownKeys(groups, m, st.consumed) {
      KeptKeys(groups, toolNorm, m, st, k);
    }
    forall k | k in UnknownKeys(groups, m, st.consumed) ensures k in UnknownKeys(groups, r, []) {
      assert k in st.out && !IsRedundant(groups, toolNorm, st.out, NormKey(k));
    }
  }

  /** Canonicalising twice is canonicalising once, whatever order the maps are walked in. */
  lemma CanonicalIsIdempotent(groups: seq<Group>, toolNorm: string, m: Object, order: seq<string>, order': seq<string>)
    requires Protected(groups, toolNorm) && Walks(order, m.Keys)
    requires Walks(order', Canonical(groups, toolNorm, m, order).Keys)
    ensures Canonical(groups, toolNorm, Canonical(groups, toolNorm, m, order), order')
         == Canonical(groups, toolNorm, m, order)
  {
    var st := Passes(groups, toolNorm, m, order);
    PassesSound(groups, toolNorm, m, order);
    SecondRunIsIdle(groups, toolNorm, m, st, order');
    RetainAgain(groups, toolNorm, st);
  }

  /** A second clean-up finds nothing to drop. */
  lemma RetainAgain(groups: seq<Group>, toolNorm: string, st: State)
    requires groups != []
    ensures var r := Retain(groups, toolNorm, st);
            Retain(groups, toolNorm, State(r, [])) == r
  {
  }

  // ── Nothing overwritten, invented or lost ─────────────────────────

  /** A canonical key of the call keeps its value, or is the one moved to `type`; a key of the result is
    * the call's own, or canonical with a value of the call; and a key that is gone had its value moved,
    * or names a canonical key that is present. */
  lemma CanonicalIsFaithful(groups: seq<Group>, toolNorm: string, m: Object, order: seq<string>)
    requires Protected(groups, toolNorm) && Walks(order, m.Keys)
    ensures var out := Canonical(groups, toolNorm, m, order);
      && (forall k | k in m && IsCanonical(groups, k) ::
            (k in out && out[k] == m[k]) || (k !in out && MovedToType(groups, m, out, k)))
      && (forall k | k in out :: if k in m then out[k] == m[k]
            else IsCanonical(groups, k) && HasValue(m, out[k]))
      && (forall k | k in m && k !in out ::
            || (exists c :: c in out && c !in m && IsCanonical(groups, c) && out[c] == m[k])
            || (!IsCanonical(groups, k) && IsRedundant(groups, toolNorm, out, NormKey(k))))
  {
    var st := Passes(groups, toolNorm, m, order);
    PassesSound(groups, toolNorm, m, order);
    var out := Canonical(groups, toolNorm, m, order);
    forall c | c in st.out && c !in m ensures c in out && out[c] == st.out[c] {
      assert c !in st.consumed;
    }
    forall k | k in m && k !in out
      ensures || (exists c :: c in out && c !in m && IsCanonical(groups, c) && out[c] == m[k])
              || (!IsCanonical(groups, k) && IsRedundant(groups, toolNorm, out, NormKey(k)))
    {
      if k in st.consumed {
        var c :| c in st.out && c !in m && IsCanonical(groups, c) && st.out[c] == m[k];
        assert c in out && out[c] == m[k];
      } else {
        PrimaryStays(groups, toolNorm, m, st);
        if exists g | g in groups :: g.canon in st.out && IsAlias(g, NormKey(k)) {
          var g :| g in groups && g.canon in st.out && IsAlias(g, NormKey(k));
          var i :| 0 <= i < |groups| && groups[i] == g;
          RedundantStays(groups, toolNorm, m, st, NormKey(k), i);
        }
      }
    }
  }

  /** A group that made a name redundant still does after the clean-up. */
  lemma RedundantStays(groups: seq<Group>, toolNorm: string, m: Object, st: State, norm: string, i: nat)
    requires Protected(groups, toolNorm) && Sound(groups, m, st)
    requires i < |groups| && groups[i].canon in st.out && IsAlias(groups[i], norm)
    ensures groups[i].canon in Retain(groups, toolNorm, st)
    ensures IsRedundant(groups, toolNorm, Retain(groups, toolNorm, st), norm)
  {
    assert groups[i] in groups;
    if groups[i].canon !in Retain(groups, toolNorm, st) {
      LostCanonical(groups, toolNorm, m, st, i);
    }
  }
}
