/** Where the values of canonicalised arguments come from, and that no name is left to replace. */
module ToolArgOrigins {
  import opened Collections
  import opened ToolArgs
  import opened ToolArgTables

  // ── Every moved value came from a name for its key ────────────────

  /** The key names the canonical key: as an alias of its group, as a type-like key with a language in
    * it, or, for the primary key, as the tool's own name or a string the table does not know. */
  ghost predicate Names(groups: seq<Group>, toolNorm: string, m: Object, c: string, k: string)
    requires groups != []
  {
    k in m && (
      || (exists g | g in groups :: g.canon == c && !IsCanonical(groups, k) && IsAlias(g, NormKey(k)))
      || (c == "type" && IsTypeNorm(groups, NormKey(k)) && IsLanguage(m[k]))
      || (c == groups[0].canon && (NormKey(k) == toolNorm || (m[k].Str? && !IsKnown(groups, NormKey(k))))))
  }

  /** The value under `c` is that of a key that names it; the two path names share theirs. */
  ghost predicate IsNamed(groups: seq<Group>, toolNorm: string, m: Object, c: string, v: Json)
    requires groups != []
  {
    exists k :: k in m && m[k] == v && (
      || Names(groups, toolNorm, m, c, k)
      || (c == groups[0].canon && (c == "path" || c == "file_path")
          && (k == OtherPath(c) || Names(groups, toolNorm, m, OtherPath(c), k))))
  }

  ghost predicate AllNamed(groups: seq<Group>, toolNorm: string, m: Object, out: Object)
    requires groups != []
  {
    forall c | c in out && c !in m :: IsNamed(groups, toolNorm, m, c, out[c])
  }

  /** The same without the last pass. */
  ghost predicate AllOwn(groups: seq<Group>, toolNorm: string, m: Object, out: Object)
    requires groups != []
  {
    && (forall c | c in out && c in m :: out[c] == m[c])
    && forall c | c in out && c !in m :: exists k :: Names(groups, toolNorm, m, c, k) && m[k] == out[c]
  }

  lemma MoveIsOwn(groups: seq<Group>, toolNorm: string, m: Object, st: State, k: string, c: string, consume: bool)
    requires groups != [] && AllOwn(groups, toolNorm, m, st.out)
    requires Names(groups, toolNorm, m, c, k) && (c in m ==> m[c] == m[k])
    ensures AllOwn(groups, toolNorm, m, Move(st, m, k, c, consume).out)
  {
  }

  lemma TypePassIsOwn(groups: seq<Group>, toolNorm: string, m: Object, order: seq<string>)
    requires groups != [] && Walks(order, m.Keys)
    ensures AllOwn(groups, toolNorm, m, TypePass(groups, m, order).out)
  {
    var hit := First(order, TypeKeys(groups, m));
    if IsCanonical(groups, "type") && "type" !in m && hit.Some? {
      assert Names(groups, toolNorm, m, "type", hit.value);
      MoveIsOwn(groups, toolNorm, m, State(m, []), hit.value, "type", NormKey(hit.value) != "type");
    }
  }

  lemma {:induction false} AliasPassIsOwn(groups: seq<Group>, n: nat, toolNorm: string, m: Object,
                                          order: seq<string>, st: State)
    requires groups != [] && n <= |groups| && AllOwn(groups, toolNorm, m, st.out)
    requires forall k | k in m :: k in st.out
    ensures var r := AliasPass(groups, n, m, order, st);
      AllOwn(groups, toolNorm, m, r.out) && forall k | k in m :: k in r.out
  {
    if n > 0 {
      AliasPassIsOwn(groups, n - 1, toolNorm, m, order, st);
      var before, g := AliasPass(groups, n - 1, m, order, st), groups[n - 1];
      var hit := First(order, AliasKeys(groups, g, m, before.consumed));
      if g.canon !in before.out && hit.Some? {
        assert g in groups && Names(groups, toolNorm, m, g.canon, hit.value);
        MoveIsOwn(groups, toolNorm, m, before, hit.value, g.canon, true);
      }
    }
  }

  lemma PrimaryPassesAreOwn(groups: seq<Group>, toolNorm: string, m: Object, order: seq<string>, st: State)
    requires groups != [] && AllOwn(groups, toolNorm, m, st.out)
    requires forall k | k in m :: k in st.out
    ensures var primary := groups[0].canon;
      AllOwn(groups, toolNorm, m, LonePass(groups, primary, m, order, ToolPass(primary, toolNorm, m, order, st)).out)
  {
    var primary := groups[0].canon;
    var hit := First(order, ToolKeys(toolNorm, m, st.consumed));
    if primary !in st.out && hit.Some? {
      assert Names(groups, toolNorm, m, primary, hit.value);
      MoveIsOwn(groups, toolNorm, m, st, hit.value, primary, true);
    }
    var t := ToolPass(primary, toolNorm, m, order, st);
    var lone := First(order, UnknownKeys(groups, m, t.consumed));
    if primary !in t.out && lone.Some? {
      assert Names(groups, toolNorm, m, primary, lone.value);
      MoveIsOwn(groups, toolNorm, m, t, lone.value, primary, true);
    }
  }

  lemma PathPassIsNamed(groups: seq<Group>, toolNorm: string, m: Object, st: State)
    requires groups != [] && AllOwn(groups, toolNorm, m, st.out)
    ensures AllNamed(groups, toolNorm, m, PathPass(groups[0].canon, st).out)
  {
    var primary := groups[0].canon;
    var out := PathPass(primary, st).out;
    forall c | c in out && c !in m ensures IsNamed(groups, toolNorm, m, c, out[c]) {
      if c in st.out {
        var k :| Names(groups, toolNorm, m, c, k) && m[k] == st.out[c];
      } else {
        var other := OtherPath(primary);
        if other in m {
          assert m[other] == out[c];
        } else {
          var k :| Names(groups, toolNorm, m, other, k) && m[k] == st.out[other];
        }
      }
    }
  }

  /** A value is only ever moved to a key that its old key is a name for. */
  lemma ValuesAreNamed(groups: seq<Group>, toolNorm: string, m: Object, order: seq<string>)
    requires Protected(groups, toolNorm) && Walks(order, m.Keys)
    ensures AllNamed(groups, toolNorm, m, Canonical(groups, toolNorm, m, order))
  {
    var typed := TypePass(groups, m, order);
    TypePassIsOwn(groups, toolNorm, m, order);
    AliasPassIsOwn(groups, |groups|, toolNorm, m, order, typed);
    var st := AliasPass(groups, |groups|, m, order, typed);
    PrimaryPassesAreOwn(groups, toolNorm, m, order, st);
    PathPassIsNamed(groups, toolNorm, m,
      LonePass(groups, groups[0].canon, m, order, ToolPass(groups[0].canon, toolNorm, m, order, st)));
  }

  // ── No name is left ───────────────────────────────────────────────

  /** Every key of the result is canonical, or unknown to the table and not the tool's name; without
    * the primary key there is no other path and no lone string to use for it. */
  ghost predicate IsComplete(groups: seq<Group>, toolNorm: string, out: Object)
    requires groups != []
  {
    var primary := groups[0].canon;
    && (forall k, g | k in out && !IsCanonical(groups, k) && g in groups :: !IsAlias(g, NormKey(k)))
    && (forall k | k in out && !IsCanonical(groups, k) :: NormKey(k) != toolNorm)
    && (primary !in out ==>
          && |UnknownKeys(groups, out, [])| != 1
          && (primary == "path" || primary == "file_path" ==> OtherPath(primary) !in out))
  }

  lemma AliasesAreGone(groups: seq<Group>, toolNorm: string, m: Object, st: State, k: string, i: nat)
    requires Protected(groups, toolNorm) && Sound(groups, m, st) && Settled(groups, toolNorm, m, st)
    requires i < |groups| && k in Retain(groups, toolNorm, st) && !IsCanonical(groups, k)
    ensures !IsAlias(groups[i], NormKey(k))
  {
    var g := groups[i];
    assert g in groups;
    if g.canon !in st.out {
      KeptKeys(groups, toolNorm, m, st, k);
      assert AliasDone(groups, g, m, st);
      assert k !in AliasKeys(groups, g, m, st.consumed);
    }
  }

  lemma NothingIsLeft(groups: seq<Group>, toolNorm: string, m: Object, order: seq<string>)
    requires Protected(groups, toolNorm) && Walks(order, m.Keys)
    ensures IsComplete(groups, toolNorm, Canonical(groups, toolNorm, m, order))
  {
    var st := Passes(groups, toolNorm, m, order);
    var out, primary := Retain(groups, toolNorm, st), groups[0].canon;
    PassesSound(groups, toolNorm, m, order);
    PrimaryStays(groups, toolNorm, m, st);
    forall k, g | k in out && !IsCanonical(groups, k) && g in groups ensures !IsAlias(g, NormKey(k)) {
      var i :| 0 <= i < |groups| && groups[i] == g;
      AliasesAreGone(groups, toolNorm, m, st, k, i);
    }
    forall k | k in out && !IsCanonical(groups, k) ensures NormKey(k) != toolNorm {
      KeptKeys(groups, toolNorm, m, st, k);
      if primary !in st.out {
        assert k !in ToolKeys(toolNorm, m, st.consumed);
      }
    }
    if primary !in out {
      SameUnknown(groups, toolNorm, m, st);
    }
  }

  /** For every curated tool: what was moved was moved to the key it names, and no name that the
    * table knows, nor the tool's own name, is left in the result. */
  lemma CanonicalizeIsComplete(tool: string, m: Object, order: seq<string>)
    requires Walks(order, m.Keys) && "__oz_corrupted_call" !in m && GroupsFor(NormKey(tool)).Some?
    ensures var groups, out := GroupsFor(NormKey(tool)).value, Canonicalize(tool, Obj(m), order).fields;
      AllNamed(groups, NormKey(tool), m, out) && IsComplete(groups, NormKey(tool), out)
  {
    var groups := GroupsFor(NormKey(tool)).value;
    TablesAreProtected(NormKey(tool));
    ValuesAreNamed(groups, NormKey(tool), m, order);
    NothingIsLeft(groups, NormKey(tool), m, order);
  }
}
