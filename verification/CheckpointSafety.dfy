/** What a crash anywhere in a save leaves to resume from. */
module CheckpointSafety {
  import opened Wrappers
  import opened WalFormat
  import opened Wal
  import opened CheckpointDisk
  import opened CheckpointRecovery
  import opened CheckpointListing
  import Retention

  lemma SessionHandle(codec: Codec, s: Session)
    requires Lawful(codec) && SessionOk(codec, s)
    ensures Usable(s)
    ensures s.handle.Some? ==> !Dead(s.disk.wal)
  {
    if s.handle.Some? {
      var recs :| Holds(s.handle.value, recs) && Live(codec, s.handle.value.data, recs);
      LiveContents(codec, s.handle.value.data, recs);
    }
  }

  /** The log after it has been opened for a save: `h` is the handle, cached or new. */
  lemma AcquireCrash(codec: Codec, s: Session, i: nat, k: nat)
    returns (h: Handle, recs: seq<seq<byte>>)
    requires Lawful(codec) && SessionOk(codec, s) && !Dead(s.disk.wal)
    ensures Cached(s).None? ==> OpenWal(s.disk.wal) == Ok(h)
    ensures Cached(s).Some? ==> Cached(s) == Some(h)
    ensures var ps := if Cached(s).Some? then [] else OpenPrims(s.disk.wal);
      var latest := WalLatest(codec, s.disk.wal);
      var d' := CrashAt(s.disk, ps, i, k);
      && d'.files == s.disk.files
      && WalOk(codec, d'.wal) && WalContents(codec, d'.wal) == WalContents(codec, s.disk.wal)
      && ApplyAll(s.disk, ps) == s.disk.(wal := Some(h.data))
      && OpenLog(codec, s.disk.(wal := Some(h.data)), h, recs, latest)
      && Decoded(codec, recs) == WalContents(codec, s.disk.wal)
  {
    if Cached(s).Some? {
      h := s.handle.value;
      recs :| Holds(h, recs) && Live(codec, h.data, recs);
      LiveContents(codec, h.data, recs);
      assert s.disk.(wal := Some(h.data)) == s.disk;
    } else {
      recs := OpenCrash(codec, s.disk, i, k);
      h := OpenWal(s.disk.wal).value;
    }
  }

  /** The three parts of a log update: opening, compacting, appending. */
  lemma WalUpdateParts(codec: Codec, s: Session, json: seq<byte>, h: Handle)
    requires Usable(s) && HEADER_SIZE <= |h.data| && h.capacity == |h.data|
    requires Cached(s).None? ==> OpenWal(s.disk.wal) == Ok(h)
    requires Cached(s).Some? ==> Cached(s) == Some(h)
    ensures var (compacting, h1) := Compaction(codec, h);
      WalUpdate(codec, s, json)
      == ((if Cached(s).Some? then [] else OpenPrims(s.disk.wal)) + compacting + AppendPrims(h1, json),
          Some(AppendTo(h1, json)))
  {
  }

  /** Updating a log that opens: every crash leaves its old latest checkpoint, the new one or
    * none; finished, its latest is the new one. */
  lemma WalUpdateCrash(codec: Codec, s: Session, cp: Checkpoint, i: nat, k: nat)
    returns (recs: seq<seq<byte>>)
    requires Lawful(codec) && SessionOk(codec, s) && Fits(codec, cp) && !Dead(s.disk.wal)
    requires Usable(s)
    ensures var (ps, handle) := WalUpdate(codec, s, codec.encode(cp));
      var d' := CrashAt(s.disk, ps, i, k);
      && d'.files == s.disk.files
      && WalBetween(codec, d'.wal, WalContents(codec, s.disk.wal), cp)
      && handle.Some?
      && ApplyAll(s.disk, ps) == s.disk.(wal := Some(handle.value.data))
      && OpenLog(codec, ApplyAll(s.disk, ps), handle.value, recs, Some(cp))
      && Decoded(codec, recs) == Kept(WalLatest(codec, s.disk.wal)) + [cp]
  {
    var d, p := s.disk, codec.encode(cp);
    var latest := WalLatest(codec, d.wal);
    var opening := if Cached(s).Some? then [] else OpenPrims(d.wal);
    var h0, recs0 := AcquireCrash(codec, s, i, k);
    WalUpdateParts(codec, s, p, h0);
    var (compacting, h1) := Compaction(codec, h0);
    recs := CompactAppendCrash(codec, d.(wal := Some(h0.data)), h0, recs0, latest, cp,
                               if i < |opening| then 0 else i - |opening|, k);
    TwoPhases(d, opening, compacting, AppendPrims(h1, p), i, k);
  }

  lemma DecodedSnoc(codec: Codec, recs: seq<seq<byte>>, cp: Checkpoint)
    requires Lawful(codec) && Fits(codec, cp)
    ensures Decoded(codec, recs + [codec.encode(cp)]) == Decoded(codec, recs) + [cp]
  {
    DecodedAppend(codec, recs, [codec.encode(cp)]);
    DecodedOne(codec, codec.encode(cp));
  }

  lemma IsBetween(codec: Codec, wal: Option<seq<byte>>, before: seq<Checkpoint>, kept: seq<Checkpoint>, cp: Checkpoint)
    requires WalOk(codec, wal) && kept == Kept(Last(before))
    requires WalContents(codec, wal) in {before, [], kept} || WalContents(codec, wal) in {kept, kept + [cp]}
    ensures WalBetween(codec, wal, before, cp)
  {
  }

  /** Appending, after changes that leave the log open with only its latest checkpoint. */
  lemma ThenAppendCrash(codec: Codec, d: Disk, a: seq<Prim>, h: Handle, recs: seq<seq<byte>>,
                        before: seq<Checkpoint>, cp: Checkpoint, i: nat, k: nat)
    requires Lawful(codec) && Fits(codec, cp) && h.capacity == |h.data|
    requires ApplyAll(d, a) == d.(wal := Some(h.data)) && Decoded(codec, recs) == Kept(Last(before))
    requires OpenLog(codec, d.(wal := Some(h.data)), h, recs, Last(before))
    requires var d' := CrashAt(d, a, i, k);
      d'.files == d.files && WalOk(codec, d'.wal) && WalContents(codec, d'.wal) in {before, [], Kept(Last(before))}
    ensures var ps, p := a + AppendPrims(h, codec.encode(cp)), codec.encode(cp);
      && CrashAt(d, ps, i, k).files == d.files
      && WalBetween(codec, CrashAt(d, ps, i, k).wal, before, cp)
      && ApplyAll(d, ps) == d.(wal := Some(AppendTo(h, p).data))
      && OpenLog(codec, d.(wal := Some(AppendTo(h, p).data)), AppendTo(h, p), recs + [p], Some(cp))
      && Decoded(codec, recs + [p]) == Kept(Last(before)) + [cp]
  {
    var appending := AppendPrims(h, codec.encode(cp));
    AppendCrash(codec, d.(wal := Some(h.data)), h, recs, Last(before), cp, if i < |a| then 0 else i - |a|, k);
    DecodedSnoc(codec, recs, cp);
    ApplyAllConcat(d, a, appending);
    CrashAtConcat(d, a, appending, i, k);
    IsBetween(codec, CrashAt(d, a + appending, i, k).wal, before, Decoded(codec, recs), cp);
  }

  /** Compacting an open log and appending to it. */
  lemma CompactAppendCrash(codec: Codec, d: Disk, h: Handle, recs: seq<seq<byte>>, latest: Option<Checkpoint>,
                           cp: Checkpoint, i: nat, k: nat)
    returns (recs': seq<seq<byte>>)
    requires Lawful(codec) && Fits(codec, cp) && OpenLog(codec, d, h, recs, latest)
    ensures var (compacting, h1) := Compaction(codec, h);
      var ps := compacting + AppendPrims(h1, codec.encode(cp));
      var d', h' := CrashAt(d, ps, i, k), AppendTo(h1, codec.encode(cp));
      && d'.files == d.files
      && WalBetween(codec, d'.wal, Decoded(codec, recs), cp)
      && ApplyAll(d, ps) == d.(wal := Some(h'.data))
      && OpenLog(codec, ApplyAll(d, ps), h', recs', Some(cp))
      && Decoded(codec, recs') == Kept(latest) + [cp]
  {
    var (compacting, h1) := Compaction(codec, h);
    var recs1 := CompactionCrash(codec, d, h, recs, latest, i, k);
    ThenAppendCrash(codec, d, compacting, h1, recs1, Decoded(codec, recs), cp, i, k);
    recs' := recs1 + [codec.encode(cp)];
  }

  lemma TwoPhases(d: Disk, a: seq<Prim>, b: seq<Prim>, c: seq<Prim>, i: nat, k: nat)
    ensures ApplyAll(d, a + b + c) == ApplyAll(ApplyAll(d, a), b + c)
    ensures CrashAt(d, a + b + c, i, k) ==
      if i < |a| then CrashAt(d, a, i, k) else CrashAt(ApplyAll(d, a), b + c, i - |a|, k)
  {
    assert a + b + c == a + (b + c);
    ApplyAllConcat(d, a, b + c);
    CrashAtConcat(d, a, b + c, i, k);
  }

  /** A log that does not open is left alone. */
  lemma WalUpdateDead(codec: Codec, s: Session, json: seq<byte>)
    requires Lawful(codec) && SessionOk(codec, s) && Dead(s.disk.wal) && s.handle.None?
    ensures WalUpdate(codec, s, json) == ([], None)
  {
    NoContents(codec, s.disk.wal);
  }

  // ── Clean-up ──────────────────────────────────────────────────────

  /** Some files may be gone, everything else is the same. */
  ghost predicate Fewer(d: Disk, d': Disk) {
    d'.wal == d.wal && forall t | t in d'.files :: t in d.files && d'.files[t] == d.files[t]
  }

  lemma {:induction false} RemoveCrash(d: Disk, removed: Listing, i: nat, k: nat)
    ensures Fewer(d, CrashAt(d, RemovePrims(removed), i, k))
    ensures Fewer(d, ApplyAll(d, RemovePrims(removed)))
    ensures forall t | t in d.files && (forall j | 0 <= j < |removed| :: removed[j].turn != t) ::
              t in CrashAt(d, RemovePrims(removed), i, k).files && t in ApplyAll(d, RemovePrims(removed)).files
    ensures forall j | 0 <= j < |removed| :: removed[j].turn !in ApplyAll(d, RemovePrims(removed)).files
    decreases |removed|
  {
    if removed != [] {
      var p, rest := RemoveFile(removed[0].turn), RemovePrims(removed[1..]);
      assert RemovePrims(removed) == [p] + rest;
      CrashAtCons(d, p, rest, i, k);
      RemoveCrash(Apply(d, p), removed[1..], if i == 0 then 0 else i - 1, k);
    }
  }

  lemma FewerKeepsOk(codec: Codec, d: Disk, d': Disk)
    requires FilesOk(codec, d.files) && Fewer(d, d')
    ensures FilesOk(codec, d'.files)
  {
    forall t | t in d'.files ensures FromFile(codec, d'.files, t) == FromFile(codec, d.files, t) {}
  }

  /** The log part of a save, whether the log opens or not. */
  lemma LogPhase(codec: Codec, s: Session, cp: Checkpoint, i: nat, k: nat)
    requires Lawful(codec) && SessionOk(codec, s) && Fits(codec, cp)
    requires Usable(s)
    ensures var (ps, handle) := WalUpdate(codec, s, codec.encode(cp));
      var d', d'' := CrashAt(s.disk, ps, i, k), ApplyAll(s.disk, ps);
      && d'.files == d''.files == s.disk.files
      && WalBetween(codec, d'.wal, WalContents(codec, s.disk.wal), cp)
      && SessionOk(codec, Session(d'', handle))
      && (Dead(s.disk.wal) ==> d'.wal == d''.wal == s.disk.wal && handle.None?)
      && (!Dead(s.disk.wal) ==> WalContents(codec, d''.wal) == Kept(WalLatest(codec, s.disk.wal)) + [cp])
  {
    SessionHandle(codec, s);
    var (ps, handle) := WalUpdate(codec, s, codec.encode(cp));
    if Dead(s.disk.wal) {
      WalUpdateDead(codec, s, codec.encode(cp));
      NoContents(codec, s.disk.wal);
    } else {
      var recs := WalUpdateCrash(codec, s, cp, i, k);
      var d'' := ApplyAll(s.disk, ps);
      OpenLogLatest(codec, d'', handle.value, recs, Some(cp));
    }
  }

  /** The log part of a save, as the rest of the save sees it: `log` touches no snapshot file, leaves a log
    * in order at every point, ends on its old latest checkpoint and the new one, and does nothing at all
    * if the log does not open. */
  ghost predicate LogSafe(codec: Codec, d: Disk, log: seq<Prim>, cp: Checkpoint) {
    && (forall i, k :: LogState(codec, d, CrashAt(d, log, i, k), cp))
    && LogState(codec, d, ApplyAll(d, log), cp)
    && (!Dead(d.wal) ==> WalContents(codec, ApplyAll(d, log).wal) == Kept(WalLatest(codec, d.wal)) + [cp])
  }

  ghost predicate LogState(codec: Codec, d: Disk, d': Disk, cp: Checkpoint) {
    && d'.files == d.files
    && WalBetween(codec, d'.wal, WalContents(codec, d.wal), cp)
    && (Dead(d.wal) ==> d'.wal == d.wal)
  }

  lemma LogIsSafe(codec: Codec, s: Session, cp: Checkpoint)
    requires Lawful(codec) && SessionOk(codec, s) && Fits(codec, cp) && Usable(s)
    ensures LogSafe(codec, s.disk, WalUpdate(codec, s, codec.encode(cp)).0, cp)
    ensures var (ps, handle) := WalUpdate(codec, s, codec.encode(cp));
            SessionOk(codec, Session(ApplyAll(s.disk, ps), handle))
  {
    var log := WalUpdate(codec, s, codec.encode(cp)).0;
    forall i, k ensures LogState(codec, s.disk, CrashAt(s.disk, log, i, k), cp) {
      LogPhase(codec, s, cp, i, k);
    }
    LogPhase(codec, s, cp, |log|, 0);
    CrashPastEnd(s.disk, log, |log|, 0);
  }

  // ── What a reader gets ────────────────────────────────────────────

  /** What a reader resumes from. */
  ghost function Best(codec: Codec, d: Disk): (best: Option<Checkpoint>) {
    LoadBest(codec, d, ListingOf(d.files))
  }

  /** There is a whole snapshot of turn `t`. */
  predicate IsWhole(codec: Codec, files: map<nat, seq<byte>>, t: nat) {
    FromFile(codec, files, t).Some?
  }

  /** Nothing that a reader could use is from after turn `n`; torn files may be. */
  ghost predicate UpTo(codec: Codec, d: Disk, n: nat) {
    && (forall t | t in d.files && IsWhole(codec, d.files, t) :: t <= n)
    && (WalLatest(codec, d.wal).Some? ==> WalLatest(codec, d.wal).value.turn <= n)
  }

  /** A reader chooses between the newest whole snapshot and the end of the log. */
  lemma BestIs(codec: Codec, d: Disk, top: Option<Checkpoint>)
    requires FilesOk(codec, d.files) && IsTop(codec, d.files, top)
    ensures Best(codec, d) == Choose(top, WalLatest(codec, d.wal))
  {
    FileBestIsTop(codec, d.files, ListingOf(d.files));
    TopIsUnique(codec, d.files, top, FileBest(codec, d.files, ListingOf(d.files)));
  }

  lemma TopExists(codec: Codec, files: map<nat, seq<byte>>) returns (top: Option<Checkpoint>)
    requires FilesOk(codec, files)
    ensures IsTop(codec, files, top)
  {
    top := FileBest(codec, files, ListingOf(files));
    FileBestIsTop(codec, files, ListingOf(files));
  }

  /** In whatever order a reader lists the files, it gets the same. */
  lemma AnyListingWillDo(codec: Codec, d: Disk, l: Listing)
    requires FilesOk(codec, d.files) && IsListing(d.files, l)
    ensures LoadBest(codec, d, l) == Best(codec, d)
  {
    FileBestIsTop(codec, d.files, l);
    BestIs(codec, d, FileBest(codec, d.files, l));
  }

  /** Whatever a reader could use is from up to the turn it resumes from. */
  lemma UpToIff(codec: Codec, d: Disk, n: nat)
    requires FilesOk(codec, d.files)
    ensures UpTo(codec, d, n) <==> (Best(codec, d).Some? ==> Best(codec, d).value.turn <= n)
  {
    var top := TopExists(codec, d.files);
    BestIs(codec, d, top);
    if top.Some? {
      assert top.value.turn in d.files && IsWhole(codec, d.files, top.value.turn);
    }
  }

  /** A reader resumes from the newest checkpoint there is, in a whole snapshot or at the end of the log,
    * and of two of the same turn from that of the log. */
  lemma BestIsNewest(codec: Codec, d: Disk)
    requires FilesOk(codec, d.files)
    ensures var best, logged := Best(codec, d), WalLatest(codec, d.wal);
      && (best.None? <==> logged.None? && forall t | t in d.files :: !IsWhole(codec, d.files, t))
      && (best.Some? ==>
            && (best == logged || FromFile(codec, d.files, best.value.turn) == best)
            && (forall t | t in d.files && IsWhole(codec, d.files, t) :: t <= best.value.turn)
            && (logged.Some? ==> logged.value.turn <= best.value.turn)
            && (logged.Some? && logged.value.turn == best.value.turn ==> best == logged))
  {
    var top := TopExists(codec, d.files);
    BestIs(codec, d, top);
    if top.Some? {
      assert top.value.turn in d.files && IsWhole(codec, d.files, top.value.turn);
    }
  }

  // ── One save ──────────────────────────────────────────────────────

  /** The disk right after the snapshot file was written. */
  function Written1(codec: Codec, d: Disk, cp: Checkpoint): Disk {
    d.(files := d.files[cp.turn := codec.encode(cp)])
  }

  /** If a whole snapshot of this turn is about to be overwritten, the log has that turn too. */
  ghost predicate Backed(codec: Codec, d: Disk, turn: nat) {
    IsWhole(codec, d.files, turn) ==> WalLatest(codec, d.wal).Some? && WalLatest(codec, d.wal).value.turn == turn
  }

  lemma CutDoesNotParse(codec: Codec, cp: Checkpoint, k: nat)
    requires Lawful(codec) && k < |codec.encode(cp)|
    ensures FromSlice(codec, codec.encode(cp)[..k]).None?
  {
    assert codec.encode(cp)[..k] == codec.encode(cp)[..k] + Zeros(0);
  }

  lemma FromFileAfter(codec: Codec, files: map<nat, seq<byte>>, t: nat, bs: seq<byte>, u: nat)
    ensures FromFile(codec, files[t := bs], u) == if u == t then FromSlice(codec, bs) else FromFile(codec, files, u)
  {
  }

  /** A file that is overwritten with something that does not parse is as good as gone. */
  lemma TornFilesOk(codec: Codec, files: map<nat, seq<byte>>, t: nat, bs: seq<byte>)
    requires FilesOk(codec, files) && FromSlice(codec, bs).None?
    ensures FilesOk(codec, files[t := bs])
    ensures forall u :: IsWhole(codec, files[t := bs], u) <==> u != t && IsWhole(codec, files, u)
    ensures forall u | u != t :: FromFile(codec, files[t := bs], u) == FromFile(codec, files, u)
  {
    forall u ensures FromFile(codec, files[t := bs], u) == if u == t then None else FromFile(codec, files, u) {
      FromFileAfter(codec, files, t, bs, u);
    }
    forall u ensures IsWhole(codec, files[t := bs], u) <==> u != t && IsWhole(codec, files, u) {
      FromFileAfter(codec, files, t, bs, u);
    }
  }

  /** A reader that would have got turn `turn` gets an older one, or nothing. */
  ghost predicate GoesBack(codec: Codec, d: Disk, d': Disk, turn: nat) {
    && Best(codec, d).Some? && Best(codec, d).value.turn == turn
    && (Best(codec, d').Some? ==> Best(codec, d').value.turn < turn)
  }

  /** A file that is no whole snapshot may be overwritten. */
  lemma TornOverTorn(codec: Codec, d: Disk, d': Disk, t: nat, bs: seq<byte>)
    requires FilesOk(codec, d.files) && !IsWhole(codec, d.files, t) && FromSlice(codec, bs).None?
    requires d' == d.(files := d.files[t := bs])
    ensures Best(codec, d') == Best(codec, d)
  {
    var top := TopExists(codec, d.files);
    BestIs(codec, d, top);
    TopWithTornFile(codec, d.files, t, bs, top);
    BestIs(codec, d', top);
  }

  /** A whole snapshot of the newest turn may be if the log has that turn too. */
  lemma TornOverWhole(codec: Codec, d: Disk, d': Disk, t: nat, bs: seq<byte>)
    requires FilesOk(codec, d.files) && IsWhole(codec, d.files, t) && FromSlice(codec, bs).None?
    requires d' == d.(files := d.files[t := bs]) && UpTo(codec, d, t)
    ensures Backed(codec, d, t) ==> Best(codec, d') == Best(codec, d)
    ensures !Backed(codec, d, t) ==> GoesBack(codec, d, d', t)
  {
    TornFilesOk(codec, d.files, t, bs);
    var top := TopExists(codec, d.files);
    var top' := TopExists(codec, d'.files);
    BestIs(codec, d, top);
    BestIs(codec, d', top');
    assert t in d.files && top.value.turn == t;
    assert top'.Some? ==> top'.value.turn in d'.files && IsWhole(codec, d'.files, top'.value.turn);
  }

  /** A crash inside the write of the snapshot file changes nothing for a reader if and only if the
    * file that is overwritten is backed by the log; otherwise the reader goes back to an older turn. */
  lemma FileWriteCrash(codec: Codec, d: Disk, cp: Checkpoint, k: nat)
    requires Lawful(codec) && FilesOk(codec, d.files) && UpTo(codec, d, cp.turn) && k < |codec.encode(cp)|
    ensures var d' := Torn(d, WriteFile(cp.turn, codec.encode(cp)), k);
      && FilesOk(codec, d'.files) && UpTo(codec, d', cp.turn)
      && (Backed(codec, d, cp.turn) ==> Best(codec, d') == Best(codec, d))
      && (!Backed(codec, d, cp.turn) ==> GoesBack(codec, d, d', cp.turn))
  {
    var bs := codec.encode(cp)[..k];
    var d' := d.(files := d.files[cp.turn := bs]);
    CutDoesNotParse(codec, cp, k);
    assert d' == Torn(d, WriteFile(cp.turn, codec.encode(cp)), k);
    TornFilesOk(codec, d.files, cp.turn, bs);
    if IsWhole(codec, d.files, cp.turn) {
      TornOverWhole(codec, d, d', cp.turn, bs);
    } else {
      TornOverTorn(codec, d, d', cp.turn, bs);
    }
  }

  lemma Written1Ok(codec: Codec, d: Disk, cp: Checkpoint)
    requires Lawful(codec) && FilesOk(codec, d.files)
    ensures var d1 := Written1(codec, d, cp);
      && FilesOk(codec, d1.files)
      && FromFile(codec, d1.files, cp.turn) == Some(cp)
      && (forall u | u != cp.turn :: FromFile(codec, d1.files, u) == FromFile(codec, d.files, u))
  {
    var d1 := Written1(codec, d, cp);
    forall u | u != cp.turn ensures FromFile(codec, d1.files, u) == FromFile(codec, d.files, u) {}
  }

  /** With the snapshot file in place and a log that was not touched, shows nothing, or has the new
    * checkpoint, a reader gets what it would have got before, or the new checkpoint. */
  lemma AfterFileWrite(codec: Codec, d: Disk, d': Disk, cp: Checkpoint)
    requires Lawful(codec) && FilesOk(codec, d.files) && UpTo(codec, d, cp.turn)
    requires d'.files == Written1(codec, d, cp).files
    requires WalLatest(codec, d'.wal) in {None, WalLatest(codec, d.wal), Some(cp)}
    ensures UpTo(codec, d', cp.turn) && Best(codec, d') in {Best(codec, d), Some(cp)}
  {
    Written1Ok(codec, d, cp);
    var top := TopExists(codec, d.files);
    BestIs(codec, d, top);
    assert top.Some? ==> top.value.turn in d.files && IsWhole(codec, d.files, top.value.turn);
    forall t | t in d'.files && IsWhole(codec, d'.files, t) ensures t <= cp.turn {
      if t != cp.turn {
        assert t in d.files && IsWhole(codec, d.files, t);
      }
    }
    TopIsNewest(codec, d'.files, cp);
    BestIs(codec, d', Some(cp));
  }

  /** Once the log has the new checkpoint, a reader gets it whatever files are left, if none of them is
    * whole and newer. */
  lemma AfterLogWrite(codec: Codec, d: Disk, cp: Checkpoint)
    requires FilesOk(codec, d.files) && WalLatest(codec, d.wal) == Some(cp)
    ensures Best(codec, d) == Some(cp)
       <==> forall t | t in d.files && IsWhole(codec, d.files, t) :: t <= cp.turn
  {
    var top := TopExists(codec, d.files);
    BestIs(codec, d, top);
    assert top.Some? ==> top.value.turn in d.files && IsWhole(codec, d.files, top.value.turn);
  }

  /** With a log that does not open the files decide. */
  lemma DeadIsTop(codec: Codec, d: Disk)
    requires Lawful(codec) && FilesOk(codec, d.files) && Dead(d.wal)
    ensures IsTop(codec, d.files, Best(codec, d)) && WalLatest(codec, d.wal) == None
  {
    NoContents(codec, d.wal);
    var top := TopExists(codec, d.files);
    BestIs(codec, d, top);
  }

  /** Some of the files of `d` are left in `d'`, with the new snapshot or without it. */
  ghost predicate LeftOf(codec: Codec, d: Disk, d': Disk, cp: Checkpoint) {
    forall t | t in d'.files ::
      t in Written1(codec, d, cp).files && d'.files[t] == Written1(codec, d, cp).files[t]
  }

  lemma LeftIsOk(codec: Codec, d: Disk, d': Disk, cp: Checkpoint)
    requires Lawful(codec) && FilesOk(codec, d.files) && LeftOf(codec, d, d', cp)
    ensures FilesOk(codec, d'.files)
    ensures forall t | t in d'.files && t != cp.turn :: FromFile(codec, d'.files, t) == FromFile(codec, d.files, t)
    ensures cp.turn in d'.files ==> FromFile(codec, d'.files, cp.turn) == Some(cp)
    ensures UpTo(codec, d, cp.turn) ==>
      forall t | t in d'.files && IsWhole(codec, d'.files, t) :: t <= cp.turn
  {
    Written1Ok(codec, d, cp);
    forall t | t in d'.files ensures FromFile(codec, d'.files, t) == FromFile(codec, Written1(codec, d, cp).files, t) {}
    assert forall t | t in d'.files && IsWhole(codec, d'.files, t) && t != cp.turn :: IsWhole(codec, d.files, t);
  }

  /** Where the log does not open, a reader gets the new checkpoint exactly if its file is there, and
    * otherwise what it would have got before exactly if that file is. */
  lemma DeadCleanup(codec: Codec, d: Disk, d': Disk, cp: Checkpoint)
    requires Lawful(codec) && FilesOk(codec, d.files) && UpTo(codec, d, cp.turn)
    requires LeftOf(codec, d, d', cp) && Dead(d.wal) && d'.wal == d.wal
    ensures cp.turn in d'.files ==> Best(codec, d') == Some(cp)
    ensures cp.turn !in d'.files ==> Best(codec, d') != Some(cp)
    ensures cp.turn !in d'.files && Backed(codec, d, cp.turn) ==>
      (Best(codec, d') == Best(codec, d) <==> (Best(codec, d).Some? ==> Best(codec, d).value.turn in d'.files))
  {
    LeftIsOk(codec, d, d', cp);
    DeadIsTop(codec, d);
    DeadIsTop(codec, d');
    var was, now := Best(codec, d), Best(codec, d');
    if now.Some? {
      assert now.value.turn in d'.files && IsWhole(codec, d'.files, now.value.turn);
    }
    if cp.turn in d'.files {
      TopIsNewest(codec, d'.files, cp);
      TopIsUnique(codec, d'.files, now, Some(cp));
    } else if Backed(codec, d, cp.turn) && (was.Some? ==> was.value.turn in d'.files) {
      assert IsTop(codec, d'.files, was);
      TopIsUnique(codec, d'.files, now, was);
    }
  }

  // ── The parts of a save ───────────────────────────────────────────

  /** The session after a finished save. */
  function Saved(codec: Codec, s: Session, cp: Checkpoint, cleanup: bool, l: Listing): (r: Session)
    requires Usable(s)
  {
    Session(ApplyAll(s.disk, SavePrims(codec, s, cp, cleanup, l)), WalUpdate(codec, s, codec.encode(cp)).1)
  }

  /** The log update depends on the log and the handle alone. */
  lemma SameUpdate(codec: Codec, s: Session, s1: Session, json: seq<byte>)
    requires Usable(s) && s1.handle == s.handle && s1.disk.wal == s.disk.wal
    ensures WalUpdate(codec, s1, json) == WalUpdate(codec, s, json)
  {
  }

  function Removed(cleanup: bool, l: Listing): (removed: Listing) {
    if cleanup then Retention.Removals(l, KEEP) else []
  }

  /** A save in three parts: the snapshot file, the log, the clean-up. */
  lemma SaveParts(codec: Codec, s: Session, cp: Checkpoint, cleanup: bool, l: Listing)
    returns (log: seq<Prim>)
    requires Lawful(codec) && SessionOk(codec, s) && Fits(codec, cp) && Usable(s)
    ensures SavePrims(codec, s, cp, cleanup, l)
         == [WriteFile(cp.turn, codec.encode(cp))] + (log + RemovePrims(Removed(cleanup, l)))
    ensures LogSafe(codec, Written1(codec, s.disk, cp), log, cp)
    ensures var d2 := ApplyAll(Written1(codec, s.disk, cp), log);
      SessionOk(codec, Session(d2, WalUpdate(codec, s, codec.encode(cp)).1))
  {
    var s1 := Session(Written1(codec, s.disk, cp), s.handle);
    Written1Ok(codec, s.disk, cp);
    assert SessionOk(codec, s1);
    SameUpdate(codec, s, s1, codec.encode(cp));
    LogIsSafe(codec, s1, cp);
    log := WalUpdate(codec, s, codec.encode(cp)).0;
    assert RemovePrims([]) == [];
  }

  /** What a crash leaves once the snapshot file is in place: all files and a log on the way, or the
    * new log and some of the files. */
  ghost predicate Midway(codec: Codec, d: Disk, d': Disk, cp: Checkpoint) {
    && LeftOf(codec, d, d', cp) && WalOk(codec, d'.wal)
    && (Dead(d.wal) ==> d'.wal == d.wal)
    && (!Dead(d.wal) ==>
          || WalLatest(codec, d'.wal) == Some(cp)
          || (d'.files == Written1(codec, d, cp).files && WalLatest(codec, d'.wal) in {None, WalLatest(codec, d.wal)}))
  }

  lemma CrashIsMidway(codec: Codec, d: Disk, cp: Checkpoint, log: seq<Prim>, removed: Listing, i: nat, k: nat)
    requires Lawful(codec) && WalOk(codec, d.wal) && LogSafe(codec, Written1(codec, d, cp), log, cp)
    ensures Midway(codec, d, CrashAt(Written1(codec, d, cp), log + RemovePrims(removed), i, k), cp)
    ensures forall t | t in Written1(codec, d, cp).files && !Retention.HasTurn(removed, t) ::
              t in CrashAt(Written1(codec, d, cp), log + RemovePrims(removed), i, k).files
  {
    var d1 := Written1(codec, d, cp);
    CrashAtConcat(d1, log, RemovePrims(removed), i, k);
    if i < |log| {
      assert LogState(codec, d1, CrashAt(d1, log, i, k), cp);
      BetweenLatest(codec, CrashAt(d1, log, i, k).wal, WalContents(codec, d.wal), cp);
    } else {
      RemoveCrash(ApplyAll(d1, log), removed, i - |log|, k);
    }
  }

  /** A finished save leaves the new log and the files that are not removed. */
  ghost predicate IsSaved(codec: Codec, d: Disk, d': Disk, cp: Checkpoint, removed: Listing) {
    && LeftOf(codec, d, d', cp) && WalOk(codec, d'.wal)
    && (Dead(d.wal) ==> d'.wal == d.wal)
    && (!Dead(d.wal) ==> WalContents(codec, d'.wal) == Kept(WalLatest(codec, d.wal)) + [cp])
    && forall t :: t in d'.files <==> t in Written1(codec, d, cp).files && !Retention.HasTurn(removed, t)
  }

  lemma RemovalsAre(d: Disk, removed: Listing)
    ensures var d' := ApplyAll(d, RemovePrims(removed));
      Fewer(d, d') && forall t :: t in d'.files <==> t in d.files && !Retention.HasTurn(removed, t)
  {
    RemoveCrash(d, removed, 0, 0);
  }

  lemma SavedIs(codec: Codec, d: Disk, cp: Checkpoint, log: seq<Prim>, removed: Listing)
    requires Lawful(codec) && LogSafe(codec, Written1(codec, d, cp), log, cp)
    ensures var ps := [WriteFile(cp.turn, codec.encode(cp))] + (log + RemovePrims(removed));
      IsSaved(codec, d, ApplyAll(d, ps), cp, removed)
  {
    var d1, write := Written1(codec, d, cp), WriteFile(cp.turn, codec.encode(cp));
    assert Apply(d, write) == d1;
    CrashAtCons(d, write, log + RemovePrims(removed), 0, 0);
    ApplyAllConcat(d1, log, RemovePrims(removed));
    RemovalsAre(ApplyAll(d1, log), removed);
  }

  lemma SaveIsSaved(codec: Codec, s: Session, cp: Checkpoint, cleanup: bool, l: Listing)
    requires Lawful(codec) && SessionOk(codec, s) && Fits(codec, cp) && Usable(s)
    ensures IsSaved(codec, s.disk, Saved(codec, s, cp, cleanup, l).disk, cp, Removed(cleanup, l))
  {
    var log := SaveParts(codec, s, cp, cleanup, l);
    SavedIs(codec, s.disk, cp, log, Removed(cleanup, l));
  }

  // ── A finished save ───────────────────────────────────────────────

  /** No whole snapshot from after the new turn is left. */
  ghost predicate NoNewerLeft(codec: Codec, d: Disk, turn: nat, cleanup: bool, l: Listing) {
    forall t | t in d.files && IsWhole(codec, d.files, t) && t > turn :: cleanup && Retention.IsRemoved(l, KEEP, t)
  }

  /** The log opens, or clean-up leaves the new file. */
  ghost predicate Lasts(d: Disk, turn: nat, cleanup: bool, l: Listing) {
    Dead(d.wal) && cleanup ==> !Retention.IsRemoved(l, KEEP, turn)
  }

  /** No whole snapshot that is left is newer. */
  ghost predicate IsNewestLeft(codec: Codec, d: Disk, turn: nat) {
    forall t | t in d.files && IsWhole(codec, d.files, t) :: t <= turn
  }

  lemma NewestIsLeftIff(codec: Codec, d: Disk, d': Disk, cp: Checkpoint, cleanup: bool, l: Listing)
    requires Lawful(codec) && FilesOk(codec, d.files) && IsSaved(codec, d, d', cp, Removed(cleanup, l))
    ensures FilesOk(codec, d'.files) && (cp.turn in d'.files ==> FromFile(codec, d'.files, cp.turn) == Some(cp))
    ensures UpTo(codec, d, cp.turn) ==> IsNewestLeft(codec, d', cp.turn)
    ensures NoNewerLeft(codec, d, cp.turn, cleanup, l) <==> IsNewestLeft(codec, d', cp.turn)
    ensures cp.turn in d'.files <==> !cleanup || !Retention.IsRemoved(l, KEEP, cp.turn)
  {
    LeftIsOk(codec, d, d', cp);
    NothingRemoved();
    assert forall t | t != cp.turn :: t in Written1(codec, d, cp).files <==> t in d.files;
  }

  lemma SavedIsBestIff(codec: Codec, d: Disk, d': Disk, cp: Checkpoint, cleanup: bool, l: Listing)
    requires Lawful(codec) && FilesOk(codec, d.files) && IsSaved(codec, d, d', cp, Removed(cleanup, l))
    ensures UpTo(codec, d, cp.turn) ==> UpTo(codec, d', cp.turn)
    ensures Best(codec, d') == Some(cp)
       <==> NoNewerLeft(codec, d, cp.turn, cleanup, l) && Lasts(d, cp.turn, cleanup, l)
  {
    NewestIsLeftIff(codec, d, d', cp, cleanup, l);
    if Dead(d.wal) {
      FilesDecide(codec, d', cp);
    } else {
      AfterLogWrite(codec, d', cp);
    }
  }

  /** A finished save is what a reader gets, if and only if no whole snapshot from after its turn is
    * left, and the log opens or clean-up leaves the new file. */
  lemma FinishedSaveIff(codec: Codec, s: Session, cp: Checkpoint, cleanup: bool, l: Listing)
    requires Lawful(codec) && SessionOk(codec, s) && Fits(codec, cp) && Usable(s)
    ensures SessionOk(codec, Saved(codec, s, cp, cleanup, l))
    ensures UpTo(codec, s.disk, cp.turn) ==> UpTo(codec, Saved(codec, s, cp, cleanup, l).disk, cp.turn)
    ensures Best(codec, Saved(codec, s, cp, cleanup, l).disk) == Some(cp)
       <==> NoNewerLeft(codec, s.disk, cp.turn, cleanup, l) && Lasts(s.disk, cp.turn, cleanup, l)
  {
    var log := SaveParts(codec, s, cp, cleanup, l);
    SavedIs(codec, s.disk, cp, log, Removed(cleanup, l));
    SavedIsBestIff(codec, s.disk, Saved(codec, s, cp, cleanup, l).disk, cp, cleanup, l);
    SavedIsOk(codec, s, cp, cleanup, l, log);
  }

  lemma SavedIsOk(codec: Codec, s: Session, cp: Checkpoint, cleanup: bool, l: Listing, log: seq<Prim>)
    requires Lawful(codec) && SessionOk(codec, s) && Usable(s)
    requires SavePrims(codec, s, cp, cleanup, l)
          == [WriteFile(cp.turn, codec.encode(cp))] + (log + RemovePrims(Removed(cleanup, l)))
    requires SessionOk(codec, Session(ApplyAll(Written1(codec, s.disk, cp), log),
                                      WalUpdate(codec, s, codec.encode(cp)).1))
    ensures SessionOk(codec, Saved(codec, s, cp, cleanup, l))
  {
    var d1, write := Written1(codec, s.disk, cp), WriteFile(cp.turn, codec.encode(cp));
    var removed := RemovePrims(Removed(cleanup, l));
    assert Apply(s.disk, write) == d1;
    CrashAtCons(s.disk, write, log + removed, 0, 0);
    ApplyAllConcat(d1, log, removed);
    RemovalsAre(ApplyAll(d1, log), Removed(cleanup, l));
    FewerKeepsOk(codec, ApplyAll(d1, log), ApplyAll(ApplyAll(d1, log), removed));
  }

  lemma NothingRemoved()
    ensures forall t :: !Retention.HasTurn([], t)
  {
  }

  lemma FilesDecide(codec: Codec, d: Disk, cp: Checkpoint)
    requires Lawful(codec) && FilesOk(codec, d.files) && Dead(d.wal)
    requires cp.turn in d.files ==> FromFile(codec, d.files, cp.turn) == Some(cp)
    ensures WalLatest(codec, d.wal) == None
    ensures Best(codec, d) == Some(cp)
       <==> cp.turn in d.files && forall t | t in d.files && IsWhole(codec, d.files, t) :: t <= cp.turn
  {
    DeadIsTop(codec, d);
    var now := Best(codec, d);
    if cp.turn in d.files && forall t | t in d.files && IsWhole(codec, d.files, t) :: t <= cp.turn {
      TopIsNewest(codec, d.files, cp);
      TopIsUnique(codec, d.files, now, Some(cp));
    }
  }

  // ── A crash anywhere in a save ────────────────────────────────────

  /** The file about to be overwritten is backed by the log; and if the log does not open, clean-up does
    * not take both the new file and the one a reader would get now. */
  ghost predicate CrashProof(codec: Codec, d: Disk, turn: nat, cleanup: bool, l: Listing) {
    && Backed(codec, d, turn)
    && (Dead(d.wal) && cleanup && Retention.IsRemoved(l, KEEP, turn) && Best(codec, d).Some? ==>
          !Retention.IsRemoved(l, KEEP, Best(codec, d).value.turn))
  }

  ghost predicate InOrder(codec: Codec, d: Disk, n: nat) {
    SessionOk(codec, Session(d, None)) && UpTo(codec, d, n)
  }

  /** The directory is in order, and if the save was safe, a reader gets the old or the new checkpoint. */
  ghost predicate CrashOutcome(codec: Codec, d: Disk, d': Disk, cp: Checkpoint, safe: bool) {
    InOrder(codec, d', cp.turn) && (safe ==> Best(codec, d') in {Best(codec, d), Some(cp)})
  }

  lemma ProofIsBacked(codec: Codec, d: Disk, turn: nat, cleanup: bool, l: Listing)
    ensures CrashProof(codec, d, turn, cleanup, l) ==> Backed(codec, d, turn)
  {
  }

  lemma FirstOrLater(codec: Codec, d: Disk, cp: Checkpoint, rest: seq<Prim>, ps: seq<Prim>, i: nat, k: nat)
    requires ps == [WriteFile(cp.turn, codec.encode(cp))] + rest
    ensures i == 0 ==> CrashAt(d, ps, i, k) == Torn(d, WriteFile(cp.turn, codec.encode(cp)), k)
    ensures i > 0 ==> CrashAt(d, ps, i, k) == CrashAt(Written1(codec, d, cp), rest, i - 1, k)
  {
    var write := WriteFile(cp.turn, codec.encode(cp));
    assert Apply(d, write) == Written1(codec, d, cp);
    CrashAtCons(d, write, rest, i, k);
  }

  lemma MidwayIsSafe(codec: Codec, d: Disk, d': Disk, cp: Checkpoint)
    requires Lawful(codec) && FilesOk(codec, d.files) && UpTo(codec, d, cp.turn) && Midway(codec, d, d', cp)
    ensures InOrder(codec, d', cp.turn)
    ensures !Dead(d.wal) ==> Best(codec, d') in {Best(codec, d), Some(cp)}
  {
    LeftIsOk(codec, d, d', cp);
    if Dead(d.wal) {
      NoContents(codec, d.wal);
    } else if WalLatest(codec, d'.wal) == Some(cp) {
      AfterLogWrite(codec, d', cp);
    } else {
      AfterFileWrite(codec, d, d', cp);
    }
  }

  lemma DeadMidwayIsSafe(codec: Codec, d: Disk, d': Disk, cp: Checkpoint, cleanup: bool, l: Listing)
    requires Lawful(codec) && FilesOk(codec, d.files) && UpTo(codec, d, cp.turn) && Midway(codec, d, d', cp)
    requires Dead(d.wal) && CrashProof(codec, d, cp.turn, cleanup, l)
    requires forall t | t in Written1(codec, d, cp).files && !Retention.HasTurn(Removed(cleanup, l), t) :: t in d'.files
    ensures Best(codec, d') in {Best(codec, d), Some(cp)}
  {
    DeadCleanup(codec, d, d', cp);
    DeadIsTop(codec, d);
    NothingRemoved();
    var was := Best(codec, d);
    assert was.Some? ==> was.value.turn in d.files && was.value.turn in Written1(codec, d, cp).files;
  }

  lemma WriteCrash(codec: Codec, d: Disk, cp: Checkpoint, k: nat)
    requires Lawful(codec) && FilesOk(codec, d.files) && WalOk(codec, d.wal) && UpTo(codec, d, cp.turn)
    ensures CrashOutcome(codec, d, Torn(d, WriteFile(cp.turn, codec.encode(cp)), k), cp, Backed(codec, d, cp.turn))
  {
    if k < |codec.encode(cp)| {
      FileWriteCrash(codec, d, cp, k);
    } else {
      assert Torn(d, WriteFile(cp.turn, codec.encode(cp)), k) == Written1(codec, d, cp);
      Written1Ok(codec, d, cp);
      AfterFileWrite(codec, d, Written1(codec, d, cp), cp);
    }
  }

  lemma LaterCrash(codec: Codec, d: Disk, d': Disk, cp: Checkpoint, cleanup: bool, l: Listing, log: seq<Prim>,
                   rest: seq<Prim>, i: nat, k: nat)
    requires Lawful(codec) && FilesOk(codec, d.files) && WalOk(codec, d.wal) && UpTo(codec, d, cp.turn)
    requires LogSafe(codec, Written1(codec, d, cp), log, cp)
    requires rest == log + RemovePrims(Removed(cleanup, l)) && d' == CrashAt(Written1(codec, d, cp), rest, i, k)
    ensures CrashOutcome(codec, d, d', cp, CrashProof(codec, d, cp.turn, cleanup, l))
  {
    CrashIsMidway(codec, d, cp, log, Removed(cleanup, l), i, k);
    MidwayIsSafe(codec, d, d', cp);
    if Dead(d.wal) && CrashProof(codec, d, cp.turn, cleanup, l) {
      DeadMidwayIsSafe(codec, d, d', cp, cleanup, l);
    }
  }

  lemma FirstCrash(codec: Codec, d: Disk, d': Disk, cp: Checkpoint, cleanup: bool, l: Listing, k: nat)
    requires Lawful(codec) && FilesOk(codec, d.files) && WalOk(codec, d.wal) && UpTo(codec, d, cp.turn)
    requires d' == Torn(d, WriteFile(cp.turn, codec.encode(cp)), k)
    ensures CrashOutcome(codec, d, d', cp, CrashProof(codec, d, cp.turn, cleanup, l))
  {
    WriteCrash(codec, d, cp, k);
    ProofIsBacked(codec, d, cp.turn, cleanup, l);
  }

  lemma CrashSafeParts(codec: Codec, d: Disk, d': Disk, cp: Checkpoint, cleanup: bool, l: Listing, log: seq<Prim>,
                       ps: seq<Prim>, i: nat, k: nat)
    requires Lawful(codec) && FilesOk(codec, d.files) && WalOk(codec, d.wal) && UpTo(codec, d, cp.turn)
    requires LogSafe(codec, Written1(codec, d, cp), log, cp)
    requires ps == [WriteFile(cp.turn, codec.encode(cp))] + (log + RemovePrims(Removed(cleanup, l)))
    requires d' == CrashAt(d, ps, i, k)
    ensures CrashOutcome(codec, d, d', cp, CrashProof(codec, d, cp.turn, cleanup, l))
  {
    var rest := log + RemovePrims(Removed(cleanup, l));
    FirstOrLater(codec, d, cp, rest, ps, i, k);
    if i == 0 {
      FirstCrash(codec, d, d', cp, cleanup, l, k);
    } else {
      LaterCrash(codec, d, d', cp, cleanup, l, log, rest, i - 1, k);
    }
  }

  /** Wherever a crash falls, the directory stays in order, and if the save is crash-proof a reader gets
    * what it would have got before or the checkpoint being saved. */
  lemma CrashSafeSave(codec: Codec, s: Session, cp: Checkpoint, cleanup: bool, l: Listing, i: nat, k: nat)
    requires Lawful(codec) && SessionOk(codec, s) && Fits(codec, cp) && Usable(s) && UpTo(codec, s.disk, cp.turn)
    ensures CrashOutcome(codec, s.disk, CrashAt(s.disk, SavePrims(codec, s, cp, cleanup, l), i, k), cp,
                         CrashProof(codec, s.disk, cp.turn, cleanup, l))
  {
    var log := SaveParts(codec, s, cp, cleanup, l);
    var ps := SavePrims(codec, s, cp, cleanup, l);
    CrashSafeParts(codec, s.disk, CrashAt(s.disk, ps, i, k), cp, cleanup, l, log, ps, i, k);
  }

  /** A save that is not crash-proof can take a reader back to an older turn: a crash at the start of it
    * if the file it overwrites is not backed, one at the end if clean-up takes both files. */
  lemma CrashGoesBack(codec: Codec, s: Session, cp: Checkpoint, cleanup: bool, l: Listing) returns (i: nat, k: nat)
    requires Lawful(codec) && SessionOk(codec, s) && Fits(codec, cp) && Usable(s) && UpTo(codec, s.disk, cp.turn)
    requires !CrashProof(codec, s.disk, cp.turn, cleanup, l)
    ensures Best(codec, s.disk).Some?
    ensures GoesBack(codec, s.disk, CrashAt(s.disk, SavePrims(codec, s, cp, cleanup, l), i, k),
                     Best(codec, s.disk).value.turn)
  {
    var d, write := s.disk, WriteFile(cp.turn, codec.encode(cp));
    var log := SaveParts(codec, s, cp, cleanup, l);
    var rest := log + RemovePrims(Removed(cleanup, l));
    if !Backed(codec, d, cp.turn) {
      i, k := 0, 0;
      CrashAtCons(d, write, rest, 0, 0);
      EncodedIsNotEmpty(codec, cp);
      FileWriteCrash(codec, d, cp, 0);
    } else {
      i, k := |[write] + rest|, 0;
      CrashPastEnd(d, [write] + rest, i, k);
      SavedIs(codec, d, cp, log, Removed(cleanup, l));
      BothTaken(codec, d, ApplyAll(d, [write] + rest), cp, Removed(cleanup, l));
    }
  }

  lemma EncodedIsNotEmpty(codec: Codec, cp: Checkpoint)
    requires Lawful(codec)
    ensures |codec.encode(cp)| > 0
  {
    assert codec.encode(cp) == [] ==> codec.encode(cp) == Zeros(0);
  }

  lemma BothTaken(codec: Codec, d: Disk, d': Disk, cp: Checkpoint, removed: Listing)
    requires Lawful(codec) && FilesOk(codec, d.files) && UpTo(codec, d, cp.turn)
    requires IsSaved(codec, d, d', cp, removed) && Dead(d.wal) && Best(codec, d).Some?
    requires Retention.HasTurn(removed, cp.turn) && Retention.HasTurn(removed, Best(codec, d).value.turn)
    ensures GoesBack(codec, d, d', Best(codec, d).value.turn)
  {
    LeftIsOk(codec, d, d', cp);
    DeadIsTop(codec, d);
    DeadIsTop(codec, d');
    var now := Best(codec, d');
    if now.Some? {
      assert now.value.turn in d'.files && IsWhole(codec, d.files, now.value.turn);
    }
  }

  /** A crash anywhere in a save leaves a reader with what it would have got before or the checkpoint
    * being saved, if and only if the save is crash-proof. */
  lemma CrashSafeIff(codec: Codec, s: Session, cp: Checkpoint, cleanup: bool, l: Listing)
    requires Lawful(codec) && SessionOk(codec, s) && Fits(codec, cp) && Usable(s) && UpTo(codec, s.disk, cp.turn)
    ensures (forall i, k ::
             Best(codec, CrashAt(s.disk, SavePrims(codec, s, cp, cleanup, l), i, k)) in {Best(codec, s.disk), Some(cp)})
       <==> CrashProof(codec, s.disk, cp.turn, cleanup, l)
  {
    var ps := SavePrims(codec, s, cp, cleanup, l);
    if CrashProof(codec, s.disk, cp.turn, cleanup, l) {
      forall i, k ensures Best(codec, CrashAt(s.disk, ps, i, k)) in {Best(codec, s.disk), Some(cp)} {
        CrashSafeSave(codec, s, cp, cleanup, l, i, k);
      }
    } else {
      var i, k := CrashGoesBack(codec, s, cp, cleanup, l);
      UpToIff(codec, s.disk, cp.turn);
      assert Best(codec, CrashAt(s.disk, ps, i, k)) !in {Best(codec, s.disk), Some(cp)};
    }
  }
}
