/** What a save leaves: how many checkpoints the log holds, and which snapshot files stay. */
module CheckpointBounds {
  import opened Wrappers
  import opened WalFormat
  import opened Wal
  import opened CheckpointDisk
  import opened CheckpointRecovery
  import opened CheckpointListing
  import opened CheckpointSafety
  import opened CheckpointRuns
  import Retention

  // ── The log ───────────────────────────────────────────────────────

  /** After a finished save a log that opens holds the latest checkpoint it had, if any, and the new one. */
  lemma SavedLogIs(codec: Codec, s: Session, cp: Checkpoint, cleanup: bool, l: Listing)
    requires Lawful(codec) && SessionOk(codec, s) && Fits(codec, cp) && Usable(s) && !Dead(s.disk.wal)
    ensures WalContents(codec, Saved(codec, s, cp, cleanup, l).disk.wal)
         == match WalLatest(codec, s.disk.wal) case Some(latest) => [latest, cp] case None => [cp]
  {
    SaveIsSaved(codec, s, cp, cleanup, l);
  }

  lemma CrashedParts(codec: Codec, d: Disk, cp: Checkpoint, log: seq<Prim>, removed: Listing, ps: seq<Prim>,
                     i: nat, k: nat)
    requires Lawful(codec) && WalOk(codec, d.wal) && LogSafe(codec, Written1(codec, d, cp), log, cp)
    requires ps == [WriteFile(cp.turn, codec.encode(cp))] + (log + RemovePrims(removed))
    ensures var wal := CrashAt(d, ps, i, k).wal; wal == d.wal || WalBetween(codec, wal, WalContents(codec, d.wal), cp)
  {
    var d1, write := Written1(codec, d, cp), WriteFile(cp.turn, codec.encode(cp));
    assert Apply(d, write) == d1;
    CrashAtCons(d, write, log + RemovePrims(removed), i, k);
    if i > 0 {
      CrashAtConcat(d1, log, RemovePrims(removed), i - 1, k);
      if i - 1 < |log| {
        assert LogState(codec, d1, CrashAt(d1, log, i - 1, k), cp);
      } else {
        RemoveCrash(ApplyAll(d1, log), removed, i - 1 - |log|, k);
        assert LogState(codec, d1, ApplyAll(d1, log), cp);
      }
    }
  }

  /** Wherever a save is cut off, the log holds what it held, nothing, its latest checkpoint, or that and
    * the new one. */
  lemma CrashedLogIs(codec: Codec, s: Session, cp: Checkpoint, cleanup: bool, l: Listing, i: nat, k: nat)
    requires Lawful(codec) && SessionOk(codec, s) && Fits(codec, cp) && Usable(s)
    ensures var was := WalContents(codec, s.disk.wal);
      var kept := if was == [] then [] else [was[|was| - 1]];
      WalContents(codec, CrashAt(s.disk, SavePrims(codec, s, cp, cleanup, l), i, k).wal) in {was, [], kept, kept + [cp]}
  {
    var log := SaveParts(codec, s, cp, cleanup, l);
    CrashedParts(codec, s.disk, cp, log, Removed(cleanup, l), SavePrims(codec, s, cp, cleanup, l), i, k);
  }

  lemma LoadKeepsLog(codec: Codec, s: Session, i: nat, k: nat)
    requires Lawful(codec) && SessionOk(codec, s)
    ensures WalContents(codec, CrashAt(s.disk, OpenPrims(s.disk.wal), i, k).wal) == WalContents(codec, s.disk.wal)
  {
    if Dead(s.disk.wal) {
      assert OpenPrims(s.disk.wal) == [];
    } else {
      var _ := OpenCrash(codec, s.disk, i, k);
    }
  }

  lemma SavedLogIsShort(codec: Codec, s: Session, cp: Checkpoint, cleanup: bool, l: Listing)
    requires Lawful(codec) && SessionOk(codec, s) && Fits(codec, cp) && Usable(s)
    requires |WalContents(codec, s.disk.wal)| <= 2
    ensures |WalContents(codec, Saved(codec, s, cp, cleanup, l).disk.wal)| <= 2
  {
    SaveIsSaved(codec, s, cp, cleanup, l);
  }

  lemma LogAfter(codec: Codec, s: Session, e: Event)
    requires Lawful(codec) && SessionOk(codec, s) && Usable(s) && (!e.Load? ==> Fits(codec, e.cp))
    requires |WalContents(codec, s.disk.wal)| <= 2
    ensures |WalContents(codec, After(codec, s, e).disk.wal)| <= 2
  {
    match e
    case Save(cp, cleanup) => SavedLogIsShort(codec, s, cp, cleanup, CleanupListing(codec, s, cp));
    case CrashedSave(cp, cleanup, i, k) => CrashedLogIs(codec, s, cp, cleanup, CleanupListing(codec, s, cp), i, k);
    case Load(i, k) => LoadKeepsLog(codec, s, i, k);
  }

  /** However long a session runs, and wherever it is cut off, its log never holds more than two
    * checkpoints. */
  lemma {:induction false} LogStaysShort(codec: Codec, events: seq<Event>)
    requires Lawful(codec) && CarriesOn(codec, events)
    ensures |WalContents(codec, History(codec, events).disk.wal)| <= 2
  {
    if events == [] {
      NoContents(codec, None);
    } else {
      var before := events[..|events| - 1];
      LogStaysShort(codec, before);
      HistoryIsOk(codec, before);
      LogAfter(codec, History(codec, before), events[|events| - 1]);
    }
  }

  // ── The files ─────────────────────────────────────────────────────

  /** The bytes of the listed files from `p` on that are still there. */
  function BytesThere(l: Listing, files: map<nat, seq<byte>>, p: nat): (n: nat)
    requires p <= |l|
    decreases |l| - p
  {
    if p == |l| then 0 else (if l[p].turn in files then l[p].size else 0) + BytesThere(l, files, p + 1)
  }

  lemma {:induction false} BytesThereAreLeft(l: Listing, removed: Listing, files: map<nat, seq<byte>>, p: nat)
    requires p <= |l|
    requires forall i | 0 <= i < |l| :: l[i].turn in files <==> !Retention.HasTurn(removed, l[i].turn)
    ensures BytesThere(l, files, p) == Retention.BytesLeft(l, removed, p)
    decreases |l| - p
  {
    if p < |l| {
      BytesThereAreLeft(l, removed, files, p + 1);
    }
  }

  lemma FilesAre(l: Listing, removed: Listing, files: map<nat, seq<byte>>, p: nat)
    requires NameSorted(l) && Retention.RealSizes(l) && p < |l| && removed == Retention.Removals(l, KEEP)
    requires forall i | 0 <= i < |l| :: l[i].turn in files <==> !Retention.HasTurn(removed, l[i].turn)
    ensures l[p].turn in files
       <==> p == |l| - 1 || (|l| - 1 - p < 5 && BytesThere(l, files, p + 1) + l[p].size <= 20 * 1024 * 1024)
  {
    SortedIsDistinct(l);
    Retention.RemovedIffOver(l, KEEP, removed, p);
    BytesThereAreLeft(l, removed, files, p + 1);
  }

  /** A finished save with clean-up leaves the file whose name is last; of the others exactly those that
    * have fewer than five names after theirs and fit into 20 MiB with the later ones that are left. */
  lemma SavedFilesAre(codec: Codec, s: Session, cp: Checkpoint, l: Listing, p: nat)
    requires Lawful(codec) && SessionOk(codec, s) && Fits(codec, cp) && Usable(s)
    requires IsListing(Written1(codec, s.disk, cp).files, l) && Retention.RealSizes(l) && p < |l|
    ensures var files := Saved(codec, s, cp, true, l).disk.files;
      l[p].turn in files
      <==> p == |l| - 1 || (|l| - 1 - p < 5 && BytesThere(l, files, p + 1) + l[p].size <= 20 * 1024 * 1024)
  {
    SaveIsSaved(codec, s, cp, true, l);
    FilesAre(l, Removed(true, l), Saved(codec, s, cp, true, l).disk.files, p);
  }

  /** Each file that is left has the bytes it had, and the new one those of the checkpoint; without clean-up
    * all are left. */
  lemma SavedFilesHold(codec: Codec, s: Session, cp: Checkpoint, cleanup: bool, l: Listing, t: nat)
    requires Lawful(codec) && SessionOk(codec, s) && Fits(codec, cp) && Usable(s)
    ensures var was, files := s.disk.files, Saved(codec, s, cp, cleanup, l).disk.files;
      && (t in files ==> if t == cp.turn then files[t] == codec.encode(cp) else t in was && files[t] == was[t])
      && (!cleanup && (t in was || t == cp.turn) ==> t in files)
  {
    SaveIsSaved(codec, s, cp, cleanup, l);
    NothingRemoved();
  }

  lemma FewOf(a: set<nat>, b: set<nat>)
    requires a <= b
    ensures |a| <= |b|
  {
    assert b == a + (b - a);
  }

  lemma LastFew(l: Listing, n: nat, turns: set<nat>)
    requires NameSorted(l)
    requires forall t | t in turns :: exists p :: 0 <= p < |l| && l[p].turn == t && |l| - 1 - p < n
    ensures |turns| <= n
  {
    var from := if |l| > n then |l| - n else 0;
    forall t | t in turns ensures t in Turns(l[from..]) {
      var p :| 0 <= p < |l| && l[p].turn == t && |l| - 1 - p < n;
      assert l[from..][p - from].turn == t;
    }
    SortedIsDistinct(l);
    DistinctTail(l, from);
    TurnsAreCounted(l[from..]);
    FewOf(turns, Turns(l[from..]));
  }

  lemma SavedIsListed(codec: Codec, s: Session, cp: Checkpoint, l: Listing, t: nat) returns (p: nat)
    requires Lawful(codec) && SessionOk(codec, s) && Fits(codec, cp) && Usable(s)
    requires IsListing(Written1(codec, s.disk, cp).files, l) && t in Saved(codec, s, cp, true, l).disk.files
    ensures p < |l| && l[p].turn == t
  {
    SaveIsSaved(codec, s, cp, true, l);
    assert t in Written1(codec, s.disk, cp).files;
    p :| 0 <= p < |l| && l[p].turn == t;
  }

  /** So there are never more than five. */
  lemma SavedFilesAreFew(codec: Codec, s: Session, cp: Checkpoint, l: Listing)
    requires Lawful(codec) && SessionOk(codec, s) && Fits(codec, cp) && Usable(s)
    requires IsListing(Written1(codec, s.disk, cp).files, l) && Retention.RealSizes(l)
    ensures |Saved(codec, s, cp, true, l).disk.files| <= 5
  {
    var turns := Saved(codec, s, cp, true, l).disk.files.Keys;
    forall t | t in turns ensures exists p :: 0 <= p < |l| && l[p].turn == t && |l| - 1 - p < 5 {
      var p := SavedIsListed(codec, s, cp, l, t);
      SavedFilesAre(codec, s, cp, l, p);
    }
    LastFew(l, 5, turns);
  }
}
