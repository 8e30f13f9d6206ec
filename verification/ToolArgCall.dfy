/** `canonicalize_tool_args` as it runs: the argument map and the list of consumed keys are
  * changed pass by pass.  Proved to compute `ToolArgTables.Canonicalize`. */
module ToolArgCall {
  import opened Wrappers
  import opened Collections
  import opened ToolArgs
  import opened ToolArgTables

  /** The first entry that satisfies `wanted`. */
  method Find(entries: seq<string>, wanted: string -> bool, ghost good: set<string>) returns (hit: Option<string>)
    requires forall k | k in entries :: wanted(k) <==> k in good
    ensures hit == First(entries, good)
  {
    for i := 0 to |entries|
      invariant First(entries, good) == First(entries[i..], good)
    {
      assert entries[i] in entries;
      if wanted(entries[i]) {
        return Some(entries[i]);
      }
    }
    hit := None;
  }

  /** The entries that satisfy `wanted`, each once. */
  method Filter(entries: seq<string>, wanted: string -> bool, ghost good: set<string>, ghost m: Object)
    returns (hits: seq<string>)
    requires Walks(entries, m.Keys) && good <= m.Keys
    requires forall k | k in entries :: wanted(k) <==> k in good
    ensures |hits| == |good| && forall k :: k in hits <==> k in good
  {
    hits := [];
    for i := 0 to |entries|
      invariant Distinct(hits)
      invariant forall k :: k in hits <==> k in good && k in entries[..i]
    {
      assert entries[i] in entries && entries[i] !in entries[..i];
      assert entries[..i + 1] == entries[..i] + [entries[i]];
      if wanted(entries[i]) {
        hits := hits + [entries[i]];
      }
    }
    assert entries[..|entries|] == entries;
    SizeOfDistinct(hits, good);
  }

  lemma {:induction false} SizeOfDistinct(hits: seq<string>, good: set<string>)
    requires Walks(hits, good)
    ensures |hits| == |good|
  {
    if hits != [] {
      var n := |hits| - 1;
      assert forall k :: k in hits[..n] <==> k in hits && k != hits[n];
      SizeOfDistinct(hits[..n], good - {hits[n]});
    } else {
      assert good == {};
    }
  }

  method AliasLoop(groups: seq<Group>, m: Object, entries: seq<string>, st: State) returns (r: State)
    requires Walks(entries, m.Keys)
    ensures r == AliasPass(groups, |groups|, m, entries, st)
  {
    var out, consumed := st.out, st.consumed;
    for i := 0 to |groups|
      invariant State(out, consumed) == AliasPass(groups, i, m, entries, st)
    {
      var g := groups[i];
      if g.canon !in out {
        var taken := consumed;
        var hit := Find(entries, k => k !in taken && !IsCanonical(groups, k) && IsAlias(g, NormKey(k)),
                        AliasKeys(groups, g, m, taken));
        if hit.Some? {
          out := out[g.canon := m[hit.value]];
          consumed := consumed + [hit.value];
        }
      }
    }
    r := State(out, consumed);
  }

  method FeedType(groups: seq<Group>, m: Object, entries: seq<string>) returns (st: State)
    requires Walks(entries, m.Keys)
    ensures st == TypePass(groups, m, entries)
  {
    st := State(m, []);
    if IsCanonical(groups, "type") && "type" !in st.out {
      var hit := Find(entries, k => k in m && IsTypeNorm(groups, NormKey(k)) && IsLanguage(m[k]), TypeKeys(groups, m));
      if hit.Some? {
        st := State(st.out["type" := m[hit.value]], if NormKey(hit.value) != "type" then [hit.value] else []);
      }
    }
  }

  method FeedFromToolName(primary: string, toolNorm: string, m: Object, entries: seq<string>, st: State)
    returns (r: State)
    requires Walks(entries, m.Keys)
    ensures r == ToolPass(primary, toolNorm, m, entries, st)
  {
    r := st;
    if primary !in r.out {
      var taken := r.consumed;
      var hit := Find(entries, k => NormKey(k) == toolNorm && k !in taken, ToolKeys(toolNorm, m, taken));
      if hit.Some? {
        r := State(r.out[primary := m[hit.value]], r.consumed + [hit.value]);
      }
    }
  }

  method FeedFromLoneKey(groups: seq<Group>, primary: string, m: Object, entries: seq<string>, st: State)
    returns (r: State)
    requires Walks(entries, m.Keys)
    ensures r == LonePass(groups, primary, m, entries, st)
  {
    r := st;
    if primary !in r.out {
      var taken := r.consumed;
      var unknown := Filter(entries,
        k => k in m && k !in taken && !IsKnown(groups, NormKey(k)) && m[k].Str? && NormKey(k) != "",
        UnknownKeys(groups, m, taken), m);
      FirstOfKeys(entries, m, UnknownKeys(groups, m, taken));
      if |unknown| == 1 {
        assert forall k | k in unknown :: k == unknown[0];
        r := State(r.out[primary := m[unknown[0]]], r.consumed + [unknown[0]]);
      }
    }
  }

  /** All five passes over an object with a table. */
  method RunPasses(groups: seq<Group>, toolNorm: string, m: Object, entries: seq<string>) returns (st: State)
    requires groups != [] && Walks(entries, m.Keys)
    ensures st == Passes(groups, toolNorm, m, entries)
  {
    var primary := groups[0].canon;
    st := FeedType(groups, m, entries);
    st := AliasLoop(groups, m, entries, st);
    st := FeedFromToolName(primary, toolNorm, m, entries, st);
    st := FeedFromLoneKey(groups, primary, m, entries, st);
    if primary !in st.out && (primary == "path" || primary == "file_path") {
      var other := OtherPath(primary);
      if other in st.out {
        st := st.(out := st.out[primary := st.out[other]]);
      }
    }
  }

  /** `norm_list`. */
  method NormList(aliases: seq<string>) returns (norms: seq<string>)
    ensures forall n :: n in norms <==> exists a | a in aliases :: NormKey(a) == n
  {
    norms := [];
    for i := 0 to |aliases|
      invariant forall n :: n in norms <==> exists a | a in aliases[..i] :: NormKey(a) == n
    {
      assert aliases[..i + 1] == aliases[..i] + [aliases[i]];
      norms := norms + [NormKey(aliases[i])];
    }
    assert aliases[..|aliases|] == aliases;
  }

  /** The names that a key now present makes redundant. */
  method DropNorms(groups: seq<Group>, toolNorm: string, out: Object) returns (norms: seq<string>)
    requires groups != []
    ensures forall n :: n in norms <==> IsRedundant(groups, toolNorm, out, n)
  {
    norms := [];
    for i := 0 to |groups|
      invariant forall n :: n in norms <==> exists g | g in groups[..i] :: g.canon in out && IsAlias(g, n)
    {
      assert groups[..i + 1] == groups[..i] + [groups[i]];
      if groups[i].canon in out {
        var more := NormList(groups[i].aliases);
        norms := norms + more;
      }
    }
    assert groups[..|groups|] == groups;
    if groups[0].canon in out {
      norms := norms + [toolNorm];
    }
  }

  /** The clean-up in place: the map is walked in any order, and keys that must go are removed. */
  method CleanUp(groups: seq<Group>, toolNorm: string, st: State) returns (out: Object)
    requires groups != []
    ensures out == Retain(groups, toolNorm, st)
  {
    var norms := DropNorms(groups, toolNorm, st.out);
    out := st.out;
    var left := out.Keys;
    while left != {}
      invariant left <= st.out.Keys
      invariant forall k :: k in out <==> k in st.out && (k in left || IsKept(groups, toolNorm, st, k))
      invariant forall k | k in out :: out[k] == st.out[k]
    {
      var k :| k in left;
      left := left - {k};
      if k in st.consumed || (!IsCanonical(groups, k) && NormKey(k) in norms) {
        out := out - {k};
      }
    }
  }

  /** Re-key the arguments of a call; `entries` is the walk of its map.  A corrupted call, a bare value and
    * a call of a tool without a table come back as they were. */
  method CanonicalizeToolArgs(tool: string, args: Args, entries: seq<string>) returns (r: Args)
    requires WalksArgs(entries, args)
    ensures r == Canonicalize(tool, args, entries)
    ensures args.Bare? || "__oz_corrupted_call" in args.fields || GroupsFor(NormKey(tool)).None? ==> r == args
  {
    if args.Bare? || CORRUPT_CALL_KEY in args.fields {
      return args;
    }
    var groups := GroupsFor(NormKey(tool));
    if groups.None? {
      return args;
    }
    var st := RunPasses(groups.value, NormKey(tool), args.fields, entries);
    var out := CleanUp(groups.value, NormKey(tool), st);
    r := Obj(out);
  }
}
