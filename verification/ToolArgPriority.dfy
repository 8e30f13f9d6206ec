/** Which name feeds a parameter when a call offers several. */
module ToolArgPriority {
  import opened Wrappers
  import opened Collections
  import opened ToolArgs
  import opened ToolArgTables
  import opened ToolArgOrigins

  /** An alias of the group that is no parameter itself. */
  predicate IsOffered(groups: seq<Group>, g: Group, m: Object, k: string) {
    k in m && !IsCanonical(groups, k) && IsAlias(g, NormKey(k))
  }

  /** The call has the parameter, or an alias of it. */
  ghost predicate IsOfferedAs(groups: seq<Group>, m: Object, c: string) {
    c in m || exists g, k :: g in groups && g.canon == c && IsOffered(groups, g, m, k)
  }

  predicate Primary(groups: seq<Group>) {
    && groups != [] && groups[0].canon != "type"
    && forall i | 0 < i < |groups| :: groups[i].canon != groups[0].canon
  }

  // ── What the passes take ──────────────────────────────────────────

  /** The keys that were taken so far have names the table knows. */
  ghost predicate TakesKnown(groups: seq<Group>, st: State) {
    forall k | k in st.consumed :: IsKnown(groups, NormKey(k))
  }

  lemma TypeIsKnown(groups: seq<Group>, norm: string)
    requires IsCanonical(groups, "type") && IsTypeNorm(groups, norm)
    ensures IsKnown(groups, norm)
  {
    TypeIsNormal();
    var g :| g in groups && g.canon == "type";
    if norm != "type" {
      var i :| 0 <= i < |groups| && groups[i].canon == "type" && IsAlias(groups[i], norm);
      assert groups[i] in groups;
    }
  }

  lemma TypeTakes(groups: seq<Group>, m: Object, order: seq<string>)
    ensures var st := TypePass(groups, m, order);
      && TakesKnown(groups, st)
      && (forall k | k in st.consumed :: IsTypeNorm(groups, NormKey(k)))
      && (forall c | c in st.out && c !in m :: c == "type")
  {
    forall k | k in TypePass(groups, m, order).consumed ensures IsKnown(groups, NormKey(k)) {
      TypeIsKnown(groups, NormKey(k));
    }
  }

  lemma {:induction false} AliasesTake(groups: seq<Group>, n: nat, m: Object, order: seq<string>, st: State)
    requires n <= |groups| && TakesKnown(groups, st)
    ensures TakesKnown(groups, AliasPass(groups, n, m, order, st))
  {
    if n > 0 {
      AliasesTake(groups, n - 1, m, order, st);
      assert groups[n - 1] in groups;
    }
  }

  /** Without an alias for it the primary key is not fed by the second pass. */
  lemma {:induction false} NoAliasNoPrimary(groups: seq<Group>, n: nat, m: Object, order: seq<string>, st: State)
    requires n <= |groups| && Primary(groups) && groups[0].canon !in st.out
    requires forall k :: !IsOffered(groups, groups[0], m, k)
    ensures groups[0].canon !in AliasPass(groups, n, m, order, st).out
  {
    if n > 0 {
      NoAliasNoPrimary(groups, n - 1, m, order, st);
      var before := AliasPass(groups, n - 1, m, order, st);
      assert forall k | k in AliasKeys(groups, groups[0], m, before.consumed) :: IsOffered(groups, groups[0], m, k);
      assert n - 1 > 0 ==> groups[n - 1].canon != groups[0].canon;
    }
  }

  lemma {:induction false} AliasPassGrows(groups: seq<Group>, n: nat, m: Object, order: seq<string>, st: State)
    requires 0 < n <= |groups|
    ensures Grows(AliasPass(groups, 1, m, order, st), AliasPass(groups, n, m, order, st))
  {
    if n > 1 {
      AliasPassGrows(groups, n - 1, m, order, st);
    }
  }

  /** An alias that is not taken as a type feeds the first group. */
  lemma AliasFeeds(groups: seq<Group>, m: Object, order: seq<string>, st: State, k: string)
    requires groups != [] && Walks(order, m.Keys) && groups[0].canon !in st.out
    requires IsOffered(groups, groups[0], m, k) && k !in st.consumed
    ensures var r, p := AliasPass(groups, 1, m, order, st), groups[0].canon;
      p in r.out && exists a :: IsOffered(groups, groups[0], m, a) && r.out[p] == m[a]
  {
    var good := AliasKeys(groups, groups[0], m, st.consumed);
    FirstOfKeys(order, m, good);
    assert k in good;
    assert AliasPass(groups, 0, m, order, st) == st;
    var hit := First(order, good).value;
    assert IsOffered(groups, groups[0], m, hit);
  }

  /** What is under the primary key after the second pass is there in the result. */
  lemma PrimaryIsKept(groups: seq<Group>, toolNorm: string, m: Object, order: seq<string>)
    requires Protected(groups, toolNorm) && Walks(order, m.Keys)
    ensures var st := AliasPass(groups, |groups|, m, order, TypePass(groups, m, order));
      var out, p := Canonical(groups, toolNorm, m, order), groups[0].canon;
      p in st.out ==> p in out && out[p] == st.out[p]
  {
    TypePassSound(groups, m, order);
    var st := AliasPassSound(groups, |groups|, m, order, TypePass(groups, m, order));
    PrimaryPassesSound(groups, toolNorm, m, order, st);
    PassesSound(groups, toolNorm, m, order);
    PrimaryStays(groups, toolNorm, m, Passes(groups, toolNorm, m, order));
  }

  // ── The order of preference ───────────────────────────────────────

  /** An alias of the primary key wins over everything but the key itself. */
  lemma AliasComesFirst(groups: seq<Group>, toolNorm: string, m: Object, order: seq<string>, k: string)
    requires Protected(groups, toolNorm) && Primary(groups) && Walks(order, m.Keys) && groups[0].canon !in m
    requires IsOffered(groups, groups[0], m, k) && !IsTypeNorm(groups, NormKey(k))
    ensures var out, p := Canonical(groups, toolNorm, m, order), groups[0].canon;
      p in out && exists a :: IsOffered(groups, groups[0], m, a) && out[p] == m[a]
  {
    var typed := TypePass(groups, m, order);
    TypeTakes(groups, m, order);
    AliasFeeds(groups, m, order, typed, k);
    AliasPassGrows(groups, |groups|, m, order, typed);
    PrimaryIsKept(groups, toolNorm, m, order);
  }

  /** No alias is offered for the primary key: this is what the later passes start from. */
  lemma NoAlias(groups: seq<Group>, toolNorm: string, m: Object, order: seq<string>) returns (st: State)
    requires Protected(groups, toolNorm) && Primary(groups) && Walks(order, m.Keys) && groups[0].canon !in m
    requires forall k :: !IsOffered(groups, groups[0], m, k)
    ensures st == AliasPass(groups, |groups|, m, order, TypePass(groups, m, order))
    ensures groups[0].canon !in st.out && TakesKnown(groups, st) && Sound(groups, m, st)
  {
    var typed := TypePass(groups, m, order);
    TypeTakes(groups, m, order);
    TypePassSound(groups, m, order);
    st := AliasPassSound(groups, |groups|, m, order, typed);
    AliasesTake(groups, |groups|, m, order, typed);
    NoAliasNoPrimary(groups, |groups|, m, order, typed);
  }

  /** What is under the primary key after the passes is there in the result. */
  lemma PassedIsKept(groups: seq<Group>, toolNorm: string, m: Object, order: seq<string>, st: State)
    requires Protected(groups, toolNorm) && Walks(order, m.Keys) && Sound(groups, m, st)
    requires st == AliasPass(groups, |groups|, m, order, TypePass(groups, m, order))
    ensures var p, out := groups[0].canon, Canonical(groups, toolNorm, m, order);
      var named := ToolPass(p, toolNorm, m, order, st);
      var guessed := LonePass(groups, p, m, order, named);
      var filled := PathPass(p, guessed);
      && (p in named.out ==> p in out && out[p] == named.out[p])
      && (p in guessed.out ==> p in out && out[p] == guessed.out[p])
      && (p in filled.out ==> p in out && out[p] == filled.out[p])
  {
    PassesSound(groups, toolNorm, m, order);
    PrimaryStays(groups, toolNorm, m, Passes(groups, toolNorm, m, order));
  }

  /** Without an alias the tool's own name wins. */
  lemma OwnNameComesNext(groups: seq<Group>, toolNorm: string, m: Object, order: seq<string>, k: string)
    requires Protected(groups, toolNorm) && Primary(groups) && Walks(order, m.Keys) && groups[0].canon !in m
    requires forall a :: !IsOffered(groups, groups[0], m, a)
    requires k in m && NormKey(k) == toolNorm && !IsKnown(groups, toolNorm)
    ensures var out, p := Canonical(groups, toolNorm, m, order), groups[0].canon;
      p in out && exists a :: a in m && NormKey(a) == toolNorm && out[p] == m[a]
  {
    var st := NoAlias(groups, toolNorm, m, order);
    var good := ToolKeys(toolNorm, m, st.consumed);
    assert k in good;
    FirstOfKeys(order, m, good);
    var hit := First(order, good).value;
    PassedIsKept(groups, toolNorm, m, order, st);
    assert hit in m && NormKey(hit) == toolNorm;
  }

  /** What the table does not know is still there after the first two passes. */
  lemma UnknownIsUntaken(groups: seq<Group>, m: Object, st: State)
    requires TakesKnown(groups, st)
    ensures UnknownKeys(groups, m, st.consumed) == UnknownKeys(groups, m, [])
  {
  }

  lemma NoOwnName(groups: seq<Group>, toolNorm: string, m: Object, order: seq<string>, st: State)
    requires forall k | k in m :: NormKey(k) != toolNorm
    ensures groups != [] ==> ToolPass(groups[0].canon, toolNorm, m, order, st) == st
  {
    assert ToolKeys(toolNorm, m, st.consumed) == {};
  }

  /** Without either, a string under the only name the table does not know. */
  lemma LoneStringComesThird(groups: seq<Group>, toolNorm: string, m: Object, order: seq<string>, k: string)
    requires Protected(groups, toolNorm) && Primary(groups) && Walks(order, m.Keys) && groups[0].canon !in m
    requires forall a :: !IsOffered(groups, groups[0], m, a)
    requires (forall a | a in m :: NormKey(a) != toolNorm) && UnknownKeys(groups, m, []) == {k}
    ensures var out, p := Canonical(groups, toolNorm, m, order), groups[0].canon; p in out && out[p] == m[k]
  {
    var st := NoAlias(groups, toolNorm, m, order);
    NoOwnName(groups, toolNorm, m, order, st);
    UnknownIsUntaken(groups, m, st);
    FirstOfKeys(order, m, UnknownKeys(groups, m, []));
    PassedIsKept(groups, toolNorm, m, order, st);
  }

  /** And last, of the two path names the other one. */
  lemma OtherPathComesLast(groups: seq<Group>, toolNorm: string, m: Object, order: seq<string>)
    requires Protected(groups, toolNorm) && Primary(groups) && Walks(order, m.Keys) && groups[0].canon !in m
    requires forall a :: !IsOffered(groups, groups[0], m, a)
    requires (forall a | a in m :: NormKey(a) != toolNorm) && |UnknownKeys(groups, m, [])| != 1
    requires groups[0].canon in {"path", "file_path"} && OtherPath(groups[0].canon) in m
    ensures var out, p := Canonical(groups, toolNorm, m, order), groups[0].canon;
      p in out && out[p] == m[OtherPath(p)]
  {
    var st := NoAlias(groups, toolNorm, m, order);
    NoOwnName(groups, toolNorm, m, order, st);
    UnknownIsUntaken(groups, m, st);
    PassedIsKept(groups, toolNorm, m, order, st);
  }

  /** A parameter that the first two passes filled was offered. */
  lemma FilledIsOffered(groups: seq<Group>, toolNorm: string, m: Object, order: seq<string>, c: string)
    requires groups != [] && Walks(order, m.Keys) && c != "type" && c != groups[0].canon
    requires c in AliasPass(groups, |groups|, m, order, TypePass(groups, m, order)).out
    ensures IsOfferedAs(groups, m, c)
  {
    var typed := TypePass(groups, m, order);
    TypePassIsOwn(groups, toolNorm, m, order);
    AliasPassIsOwn(groups, |groups|, toolNorm, m, order, typed);
    if c !in m {
      var st := AliasPass(groups, |groups|, m, order, typed);
      var k :| Names(groups, toolNorm, m, c, k) && m[k] == st.out[c];
      var g :| g in groups && g.canon == c && !IsCanonical(groups, k) && IsAlias(g, NormKey(k));
      assert IsOffered(groups, g, m, k);
    }
  }

  /** The last pass gives the primary key only the other path. */
  lemma LastPassGives(groups: seq<Group>, toolNorm: string, m: Object, order: seq<string>, st: State)
    requires Protected(groups, toolNorm) && Walks(order, m.Keys)
    requires st == AliasPass(groups, |groups|, m, order, TypePass(groups, m, order)) && groups[0].canon !in st.out
    requires (forall a | a in m :: NormKey(a) != toolNorm) && |UnknownKeys(groups, m, st.consumed)| != 1
    ensures var p := groups[0].canon;
      p in Canonical(groups, toolNorm, m, order) ==> p in {"path", "file_path"} && OtherPath(p) in st.out
  {
    NoOwnName(groups, toolNorm, m, order, st);
    PassesSound(groups, toolNorm, m, order);
    PrimaryStays(groups, toolNorm, m, Passes(groups, toolNorm, m, order));
  }

  /** Nothing else does: more than one unknown string is not guessed from. */
  lemma NothingElseFeeds(groups: seq<Group>, toolNorm: string, m: Object, order: seq<string>)
    requires Protected(groups, toolNorm) && Primary(groups) && Walks(order, m.Keys) && groups[0].canon !in m
    requires forall a :: !IsOffered(groups, groups[0], m, a)
    requires (forall a | a in m :: NormKey(a) != toolNorm) && |UnknownKeys(groups, m, [])| != 1
    ensures var p := groups[0].canon;
      p in Canonical(groups, toolNorm, m, order) ==> p in {"path", "file_path"} && IsOfferedAs(groups, m, OtherPath(p))
  {
    var st := NoAlias(groups, toolNorm, m, order);
    UnknownIsUntaken(groups, m, st);
    LastPassGives(groups, toolNorm, m, order, st);
    var p := groups[0].canon;
    if p in Canonical(groups, toolNorm, m, order) {
      FilledIsOffered(groups, toolNorm, m, order, OtherPath(p));
    }
  }

  /** A language under a type-like key feeds `type`, whatever other names for `type` there are. */
  lemma LanguageFeedsType(groups: seq<Group>, toolNorm: string, m: Object, order: seq<string>, k: string)
    requires Protected(groups, toolNorm) && Walks(order, m.Keys) && IsCanonical(groups, "type") && "type" !in m
    requires k in m && IsTypeNorm(groups, NormKey(k)) && IsLanguage(m[k])
    ensures var out := Canonical(groups, toolNorm, m, order);
      && "type" in out && IsLanguage(out["type"])
      && exists t :: t in m && IsTypeNorm(groups, NormKey(t)) && out["type"] == m[t]
  {
    var good := TypeKeys(groups, m);
    assert k in good;
    FirstOfKeys(order, m, good);
    var hit := First(order, good).value;
    assert hit in m && IsTypeNorm(groups, NormKey(hit));
    TypePassSound(groups, m, order);
    var st := AliasPassSound(groups, |groups|, m, order, TypePass(groups, m, order));
    PrimaryPassesSound(groups, toolNorm, m, order, st);
    PassesSound(groups, toolNorm, m, order);
    var done := Passes(groups, toolNorm, m, order);
    assert "type" in done.out && done.out["type"] == m[hit];
    assert "type" !in done.consumed;
  }

  // ── For the curated tools ─────────────────────────────────────────

  lemma TablesArePrimary(toolNorm: string)
    requires GroupsFor(toolNorm).Some?
    ensures Primary(GroupsFor(toolNorm).value)
  {
  }

  /** The value of the primary parameter of a call that does not have it, by order of preference. */
  ghost predicate IsPreferred(groups: seq<Group>, toolNorm: string, m: Object, out: Object)
    requires groups != []
  {
    var p := groups[0].canon;
    if exists k :: IsOffered(groups, groups[0], m, k) && !IsTypeNorm(groups, NormKey(k)) then
      p in out && exists k :: IsOffered(groups, groups[0], m, k) && out[p] == m[k]
    else if exists k :: IsOffered(groups, groups[0], m, k) then true
    else if exists k :: k in m && NormKey(k) == toolNorm then
      !IsKnown(groups, toolNorm) ==> p in out && exists k :: k in m && NormKey(k) == toolNorm && out[p] == m[k]
    else if |UnknownKeys(groups, m, [])| == 1 then
      p in out && exists k :: k in UnknownKeys(groups, m, []) && out[p] == m[k]
    else if p in {"path", "file_path"} && OtherPath(p) in m then
      p in out && out[p] == m[OtherPath(p)]
    else p in out ==> p in {"path", "file_path"} && IsOfferedAs(groups, m, OtherPath(p))
  }

  lemma OneKey(keys: set<string>) returns (k: string)
    requires |keys| == 1
    ensures keys == {k}
  {
    k :| k in keys;
    assert |keys - {k}| == 0;
  }

  /** For every curated tool: an alias, else the tool's name, else the only unknown string, else the
    * other path, else nothing; and a language goes to `type`. */
  lemma CanonicalizePrefers(tool: string, m: Object, order: seq<string>)
    requires Walks(order, m.Keys) && "__oz_corrupted_call" !in m && GroupsFor(NormKey(tool)).Some?
    ensures var groups, out := GroupsFor(NormKey(tool)).value, Canonicalize(tool, Obj(m), order).fields;
      && (groups[0].canon !in m ==> IsPreferred(groups, NormKey(tool), m, out))
      && (IsCanonical(groups, "type") && "type" !in m && TypeKeys(groups, m) != {} ==>
            "type" in out && IsLanguage(out["type"]))
  {
    var groups, toolNorm := GroupsFor(NormKey(tool)).value, NormKey(tool);
    TablesAreProtected(toolNorm);
    TablesArePrimary(toolNorm);
    if groups[0].canon !in m {
      Prefers(groups, toolNorm, m, order);
    }
    if IsCanonical(groups, "type") && "type" !in m && TypeKeys(groups, m) != {} {
      var k :| k in TypeKeys(groups, m);
      LanguageFeedsType(groups, toolNorm, m, order, k);
    }
  }

  lemma Prefers(groups: seq<Group>, toolNorm: string, m: Object, order: seq<string>)
    requires Protected(groups, toolNorm) && Primary(groups) && Walks(order, m.Keys) && groups[0].canon !in m
    ensures IsPreferred(groups, toolNorm, m, Canonical(groups, toolNorm, m, order))
  {
    if k :| IsOffered(groups, groups[0], m, k) && !IsTypeNorm(groups, NormKey(k)) {
      AliasComesFirst(groups, toolNorm, m, order, k);
    } else if exists k :: IsOffered(groups, groups[0], m, k) {
    } else if k :| k in m && NormKey(k) == toolNorm {
      if !IsKnown(groups, toolNorm) {
        OwnNameComesNext(groups, toolNorm, m, order, k);
      }
    } else if |UnknownKeys(groups, m, [])| == 1 {
      var k := OneKey(UnknownKeys(groups, m, []));
      LoneStringComesThird(groups, toolNorm, m, order, k);
    } else if groups[0].canon in {"path", "file_path"} && OtherPath(groups[0].canon) in m {
      OtherPathComesLast(groups, toolNorm, m, order);
    } else {
      NothingElseFeeds(groups, toolNorm, m, order);
    }
  }
}
