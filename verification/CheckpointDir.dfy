/** The checkpoint store as the program runs it: the session's files, its log file and the
  * cached log handle, changed step by step.  Each operation is proved to leave exactly the
  * disk that its list of changes in `CheckpointDisk` describes, so that the crash results of
  * `CheckpointSafety` and `CheckpointRuns` are about these operations. */
module CheckpointDir {
  import opened Wrappers
  import opened WalFormat
  import opened Wal
  import opened CheckpointDisk
  import opened CheckpointRecovery
  import opened CheckpointSafety
  import opened CheckpointListing
  import Names
  import Retention

  // ── What lists of changes do ──────────────────────────────────────

  lemma ApplyOne(d: Disk, p: Prim)
    ensures ApplyAll(d, [p]) == Apply(d, p)
  {
    assert [p][1..] == [];
  }

  /** The file after opening it, whether that succeeds or not. */
  function OpenedFile(wal: Option<seq<byte>>): seq<byte> {
    match wal
    case None => FreshBytes()
    case Some(b) =>
      if b == [] then FreshBytes() else if |b| < INITIAL_SIZE then Extend(b, INITIAL_SIZE) else b
  }

  lemma OpenDone(codec: Codec, d: Disk)
    requires Lawful(codec)
    ensures ApplyAll(d, OpenPrims(d.wal)) == d.(wal := Some(OpenedFile(d.wal)))
    ensures OpenWal(d.wal).Ok? ==> OpenWal(d.wal).value.data == OpenedFile(d.wal)
  {
    if d.wal.None? {
      CreateCrash(codec, d, 0, 0);
    } else if d.wal.value == [] {
      InitCrash(codec, d, 0, 0);
    } else if |d.wal.value| < INITIAL_SIZE {
      ApplyOne(d, SetLen(INITIAL_SIZE));
    } else {
      assert Extend(d.wal.value, |d.wal.value|) == d.wal.value;
      assert d == d.(wal := Some(d.wal.value));
    }
  }

  lemma AppendDone(d: Disk, h: Handle, p: seq<byte>)
    requires h.capacity == |h.data| && d.wal == Some(h.data)
    ensures ApplyAll(d, AppendPrims(h, p)) == d.(wal := Some(AppendTo(h, p).data))
  {
    var grown, reached := AppendCrashes(h, p, d, 0, 0);
  }

  lemma CompactionDone(codec: Codec, d: Disk, h: Handle, latest: Checkpoint)
    requires Lawful(codec) && HEADER_SIZE <= |h.data| && h.capacity == |h.data| && d.wal == Some(h.data)
    requires h.records >= MAX_WAL_RECORDS && Latest(codec, h.data) == Some(latest)
    ensures var (ps, h') := Compaction(codec, h);
      h' == AppendTo(BLANK, codec.encode(latest)) && ApplyAll(d, ps) == d.(wal := Some(h'.data))
  {
    var p := codec.encode(latest);
    var d1, d2 := d.(wal := None), d.(wal := Some(FreshBytes()));
    assert Apply(d, RemoveWal) == d1;
    CrashAtCons(d, RemoveWal, OpenPrims(None) + AppendPrims(BLANK, p), 0, 0);
    CreateCrash(codec, d1, 0, 0);
    ApplyAllConcat(d1, OpenPrims(None), AppendPrims(BLANK, p));
    AppendDone(d2, BLANK, p);
  }

  // ── Listings ──────────────────────────────────────────────────────

  lemma SameHead(files: map<nat, seq<byte>>, a: Listing, b: Listing)
    requires IsListing(files, a) && IsListing(files, b) && a != []
    ensures b != [] && a[0] == b[0]
  {
    var t := a[0].turn;
    assert t in files;
    var j :| 0 <= j < |b| && b[j].turn == t;
    var u := b[0].turn;
    assert u in files;
    var i :| 0 <= i < |a| && a[i].turn == u;
    FirstFirst(a, b, i, j);
    assert a[0].size == |files[t]| && b[0].size == |files[u]|;
  }

  /** A sorted listing is determined by the directory. */
  lemma {:induction false} ListingUnique(files: map<nat, seq<byte>>, a: Listing, b: Listing)
    requires IsListing(files, a) && IsListing(files, b)
    ensures a == b
    decreases |a|
  {
    if a == [] {
      if b != [] { SameHead(files, b, a); }
    } else {
      SameHead(files, a, b);
      ListingTail(files, a);
      ListingTail(files, b);
      ListingUnique(files - {a[0].turn}, a[1..], b[1..]);
      SameParts(a, b);
    }
  }

  lemma SameParts<T>(a: seq<T>, b: seq<T>)
    requires a != [] && b != [] && a[0] == b[0] && a[1..] == b[1..]
    ensures a == b
  {
    assert a == [a[0]] + a[1..] && b == [b[0]] + b[1..];
  }

  lemma NextPart<T>(s: seq<T>, i: nat)
    requires i < |s|
    ensures s[i..] != [] && s[i..][0] == s[i] && s[i..][1..] == s[i + 1..] && s[..i] + [s[i]] == s[..i + 1]
  {
  }

  lemma FirstFirst(a: Listing, b: Listing, i: nat, j: nat)
    requires NameSorted(a) && NameSorted(b) && i < |a| && j < |b|
    requires a[i].turn == b[0].turn && b[j].turn == a[0].turn
    ensures a[0].turn == b[0].turn
  {
    Names.TextLessIsStrict(Names.SnapshotName(a[0].turn), Names.SnapshotName(b[0].turn));
    assert i > 0 ==> NameLess(a[0].turn, a[i].turn);
    assert j > 0 ==> NameLess(b[0].turn, b[j].turn);
  }

  lemma ListingTail(files: map<nat, seq<byte>>, l: Listing)
    requires IsListing(files, l) && l != []
    ensures IsListing(files - {l[0].turn}, l[1..])
  {
    var t, rest := l[0].turn, l[1..];
    forall i | 0 <= i < |rest| ensures rest[i].turn != t {
      Names.TextLessIsStrict(Names.SnapshotName(t), Names.SnapshotName(l[i + 1].turn));
      assert NameLess(l[0].turn, l[i + 1].turn);
    }
    forall u | u in files - {t} ensures exists i :: 0 <= i < |rest| && rest[i].turn == u {
      var i :| 0 <= i < |l| && l[i].turn == u;
      assert rest[i - 1].turn == u;
    }
  }

  lemma ListOneMore(files: map<nat, seq<byte>>, left: set<nat>, t: nat, l: Listing)
    requires t in left && left <= files.Keys && Lists(files - left, l) && NameSorted(l)
    ensures var l' := Insert(l, Retention.Snapshot(t, |files[t]|));
            Lists(files - (left - {t}), l') && NameSorted(l')
  {
    var more := files - (left - {t});
    assert more - {t} == files - left;
    InsertLists(more, t, l);
    assert forall i | 0 <= i < |l| :: l[i].turn in files - left;
    InsertSorted(l, Retention.Snapshot(t, |files[t]|));
  }

  class CheckpointDir {
    var files: map<nat, seq<byte>>
    var wal: Option<seq<byte>>
    var handle: Option<Handle>

    function OnDisk(): Disk
      reads this
    {
      Disk(files, wal)
    }

    function State(): Session
      reads this
    {
      Session(OnDisk(), handle)
    }

    constructor ()
      ensures State() == Session(Disk(map[], None), None)
    {
      files, wal, handle := map[], None, None;
    }

    /** A cached handle maps the log file, unless the file is gone. */
    ghost predicate Valid()
      reads this
    {
      Usable(State()) && (handle.Some? && wal.Some? ==> wal == Some(handle.value.data))
    }

    /** The handle to append with: the cached one if its file is still there, else a new one. */
    method Acquire(codec: Codec) returns (ok: bool)
      requires Lawful(codec) && Valid()
      modifies this`wal, this`handle
      ensures Valid()
      ensures old(Cached(State())).Some? ==> ok && State() == old(State())
      ensures old(Cached(State())).None? ==>
                && OnDisk() == ApplyAll(old(OnDisk()), OpenPrims(old(wal)))
                && ok == OpenWal(old(wal)).Ok?
                && handle == (if ok then Some(OpenWal(old(wal)).value) else None)
      ensures ok ==> handle.Some? && wal == Some(handle.value.data)
    {
      if handle.Some? && wal.None? {
        handle := None;
      }
      ok := true;
      if handle.None? {
        OpenDone(codec, OnDisk());
        var log := OpenWal(wal);
        wal := Some(OpenedFile(wal));
        ok := log.Ok?;
        if ok {
          handle := Some(log.value);
        }
      }
    }

    /** Past the record budget, keep only the newest checkpoint: drop the handle, remove the
      * file, reopen it fresh and append that checkpoint again. */
    method Compact(codec: Codec)
      requires Lawful(codec) && Valid() && handle.Some? && wal.Some?
      modifies this`wal, this`handle
      ensures Valid() && handle.Some? && wal == Some(handle.value.data)
      ensures var (ps, h) := Compaction(codec, old(handle).value);
              OnDisk() == ApplyAll(old(OnDisk()), ps) && handle == Some(h)
    {
      var h := handle.value;
      var latest := Latest(codec, h.data);
      if h.records >= MAX_WAL_RECORDS && latest.Some? {
        CompactionDone(codec, OnDisk(), h, latest.value);
        handle, wal := None, None;
        wal := Some(FreshBytes());
        var appended := AppendTo(BLANK, codec.encode(latest.value));
        handle, wal := Some(appended), Some(appended.data);
      }
    }

    /** Add a checkpoint to the session's log. */
    method AppendCheckpointWalBytes(codec: Codec, json: seq<byte>)
      requires Lawful(codec) && Valid()
      modifies this`wal, this`handle
      ensures Valid()
      ensures var (ps, h) := WalUpdate(codec, old(State()), json);
              State() == Session(ApplyAll(old(OnDisk()), ps), h)
    {
      ghost var s0 := State();
      var ok := Acquire(codec);
      ghost var d1 := OnDisk();
      ghost var opening := if Cached(s0).Some? then [] else OpenPrims(s0.disk.wal);
      assert ApplyAll(s0.disk, opening) == d1;
      if !ok {
        return;
      }
      ghost var h0 := handle.value;
      Compact(codec);
      ghost var d2, h1 := OnDisk(), handle.value;
      AppendDone(d2, h1, json);
      var appended := AppendTo(handle.value, json);
      handle, wal := Some(appended), Some(appended.data);
      ThreeParts(s0.disk, opening, Compaction(codec, h0).0, AppendPrims(h1, json));
    }

    /** The snapshot files in name order. */
    method CollectCheckpoints() returns (l: Listing)
      ensures IsListing(files, l)
    {
      l := [];
      var left := files.Keys;
      while left != {}
        invariant left <= files.Keys
        invariant Lists(files - left, l) && NameSorted(l)
        decreases |left|
      {
        var t :| t in left;
        var x := Retention.Snapshot(t, |files[t]|);
        ListOneMore(files, left, t, l);
        l := Insert(l, x);
        left := left - {t};
      }
      assert files - {} == files;
      ListsIsListing(files, l);
    }

    /** Remove the oldest names beyond `keep`. */
    method RemoveSurplus(entries: Listing, keep: nat)
      requires IsListing(files, entries)
      modifies this`files
      ensures OnDisk() == ApplyAll(old(OnDisk()), RemovePrims(Retention.Surplus(entries, keep)))
      ensures IsListing(files, entries[|Retention.Surplus(entries, keep)|..])
    {
      ghost var d0 := OnDisk();
      assert RemovePrims(entries[..0]) == [];
      var surplus := if |entries| > keep then |entries| - keep else 0;
      for i := 0 to surplus
        invariant OnDisk() == ApplyAll(d0, RemovePrims(entries[..i]))
        invariant IsListing(files, entries[i..])
      {
        NextPart(entries, i);
        ListingTail(files, entries[i..]);
        RemoveOne(d0, entries[..i], entries[i]);
        files := files - {entries[i].turn};
      }
    }

    /** Newest first, remove what is over the byte budget, never the newest. */
    method RemoveOverBudget(remaining: Listing) returns (ghost removed: Listing)
      modifies this`files
      ensures removed == Retention.Sweep(remaining, 0, 0).1
      ensures OnDisk() == ApplyAll(old(OnDisk()), RemovePrims(removed))
    {
      ghost var d0 := OnDisk();
      removed := [];
      assert RemovePrims(removed) == [];
      var total: nat := 0;
      for i := 0 to |remaining|
        invariant OnDisk() == ApplyAll(d0, RemovePrims(removed))
        invariant Retention.Sweep(remaining, 0, 0).1 == removed + Retention.Sweep(remaining, i, total).1
      {
        var size := remaining[i].size;
        total := Retention.SaturatingAdd(total, size);
        if i > 0 && total > Retention.MAX_BYTES {
          RemoveOne(d0, removed, remaining[i]);
          files := files - {remaining[i].turn};
          removed := removed + [remaining[i]];
          total := Retention.SaturatingSub(total, size);
        }
      }
      assert removed + [] == removed;
    }

    /** The count budget, then the byte budget. */
    method CleanupSessionCheckpoints(keep: nat) returns (ghost removed: Listing)
      modifies this`files
      ensures forall l | IsListing(old(files), l) :: removed == Retention.Removals(l, keep)
      ensures OnDisk() == ApplyAll(old(OnDisk()), RemovePrims(removed))
    {
      var entries := CollectCheckpoints();
      forall l | IsListing(files, l) ensures l == entries { ListingUnique(files, l, entries); }
      ghost var surplus := Retention.Surplus(entries, keep);
      RemoveSurplus(entries, keep);
      var remaining := CollectCheckpoints();
      ListingUnique(files, remaining, entries[|surplus|..]);
      var newestFirst := Retention.Reverse(remaining);
      assert newestFirst == Retention.Recent(entries, keep);
      ghost var swept := RemoveOverBudget(newestFirst);
      removed := surplus + swept;
      RemoveBoth(old(OnDisk()), surplus, swept);
    }

    /** Save a checkpoint: the snapshot file, the log, and clean-up unless history is kept. */
    method SaveLoopCheckpoint(codec: Codec, cp: Checkpoint, cleanup: bool)
      requires Lawful(codec) && Valid()
      modifies this
      ensures Valid()
      ensures forall l | IsListing(Written1(codec, old(OnDisk()), cp).files, l) ::
                State() == Saved(codec, old(State()), cp, cleanup, l)
    {
      ghost var s0 := State();
      var json := codec.encode(cp);
      files := files[cp.turn := json];
      ghost var s1 := State();
      assert s1.disk == Written1(codec, s0.disk, cp);
      SameUpdate(codec, s0, s1, json);
      AppendCheckpointWalBytes(codec, json);
      ghost var log := WalUpdate(codec, s0, json).0;
      ghost var d2 := OnDisk();
      ghost var removed: Listing := [];
      if cleanup {
        removed := CleanupSessionCheckpoints(KEEP);
      }
      assert RemovePrims([]) == [];
      SaveIsDone(codec, s0, cp, log, removed);
    }

    /** The checkpoint to resume from. */
    method LoadBestLoopCheckpoint(codec: Codec) returns (best: Option<Checkpoint>)
      requires Lawful(codec)
      modifies this`wal
      ensures forall l | IsListing(files, l) :: best == LoadBest(codec, old(OnDisk()), l)
      ensures wal == Some(OpenedFile(old(wal)))
    {
      var paths := CollectCheckpoints();
      forall l | IsListing(files, l) ensures l == paths { ListingUnique(files, l, paths); }
      var fileBest := None;
      if paths != [] {
        var newest := ReadNewestTurn(paths);
        NewestTurnIsMax(paths);
        fileBest := FromFile(codec, files, newest);
        if fileBest.None? {
          fileBest := ScanAll(codec, files, paths);
        }
      }
      var log := OpenWal(wal);
      var fromLog := if log.Ok? then Latest(codec, log.value.data) else None;
      best := Choose(fileBest, fromLog);
      wal := Some(OpenedFile(wal));
      OpenDone(codec, old(OnDisk()));
    }
  }

  method ReadNewestTurn(paths: Listing) returns (newest: nat)
    requires paths != []
    ensures newest == NewestTurn(paths)
  {
    newest := paths[0].turn;
    for i := 1 to |paths|
      invariant newest == NewestTurn(paths[..i])
    {
      assert paths[..i + 1][..i] == paths[..i];
      if paths[i].turn >= newest {
        newest := paths[i].turn;
      }
    }
    assert paths[..|paths|] == paths;
  }

  method ScanAll(codec: Codec, files: map<nat, seq<byte>>, paths: Listing) returns (best: Option<Checkpoint>)
    ensures best == BestOf(codec, files, paths)
  {
    best := None;
    for i := 0 to |paths|
      invariant best == BestOf(codec, files, paths[..i])
    {
      assert paths[..i + 1][..i] == paths[..i];
      var parsed := FromFile(codec, files, paths[i].turn);
      if parsed.Some? {
        if best.None? || parsed.value.turn > best.value.turn
           || (parsed.value.turn == best.value.turn && parsed.value.messages > best.value.messages) {
          best := parsed;
        }
      }
    }
    assert paths[..|paths|] == paths;
  }

  lemma ThreeParts(d: Disk, a: seq<Prim>, b: seq<Prim>, c: seq<Prim>)
    ensures ApplyAll(d, a + b + c) == ApplyAll(ApplyAll(ApplyAll(d, a), b), c)
  {
    ApplyAllConcat(d, a, b);
    ApplyAllConcat(d, a + b, c);
  }

  lemma RemoveOne(d: Disk, removed: Listing, x: Retention.Snapshot)
    ensures ApplyAll(d, RemovePrims(removed + [x])) == Apply(ApplyAll(d, RemovePrims(removed)), RemoveFile(x.turn))
  {
    assert RemovePrims(removed + [x]) == RemovePrims(removed) + [RemoveFile(x.turn)];
    ApplyAllConcat(d, RemovePrims(removed), [RemoveFile(x.turn)]);
    ApplyOne(ApplyAll(d, RemovePrims(removed)), RemoveFile(x.turn));
  }

  lemma RemoveBoth(d: Disk, a: Listing, b: Listing)
    ensures ApplyAll(ApplyAll(d, RemovePrims(a)), RemovePrims(b)) == ApplyAll(d, RemovePrims(a + b))
  {
    assert RemovePrims(a + b) == RemovePrims(a) + RemovePrims(b);
    ApplyAllConcat(d, RemovePrims(a), RemovePrims(b));
  }

  lemma SaveIsDone(codec: Codec, s: Session, cp: Checkpoint, log: seq<Prim>, removed: Listing)
    ensures ApplyAll(s.disk, [WriteFile(cp.turn, codec.encode(cp))] + (log + RemovePrims(removed)))
         == ApplyAll(ApplyAll(Written1(codec, s.disk, cp), log), RemovePrims(removed))
  {
    var write := WriteFile(cp.turn, codec.encode(cp));
    assert Apply(s.disk, write) == Written1(codec, s.disk, cp);
    CrashAtCons(s.disk, write, log + RemovePrims(removed), 0, 0);
    ApplyAllConcat(Written1(codec, s.disk, cp), log, RemovePrims(removed));
  }
}
