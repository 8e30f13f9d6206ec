/** Histories of saves, crashes and reloads of one session's checkpoint directory. */
module CheckpointRuns {
  import opened Wrappers
  import opened WalFormat
  import opened Wal
  import opened CheckpointDisk
  import opened CheckpointRecovery
  import opened CheckpointListing
  import opened CheckpointSafety
  import Names
  import Retention

  // ── Histories ─────────────────────────────────────────────────────

  /** A finished save, a save cut off `k` bytes into its change `i`, or a new process that
    * opens the log to resume (itself possibly cut off). */
  datatype Event =
    | Save(cp: Checkpoint, cleanup: bool)
    | CrashedSave(cp: Checkpoint, cleanup: bool, i: nat, k: nat)
    | Load(i: nat, k: nat)

  /** The listing clean-up sees: the directory with the new snapshot file in it. */
  ghost function CleanupListing(codec: Codec, s: Session, cp: Checkpoint): Listing {
    ListingOf(Written1(codec, s.disk, cp).files)
  }

  ghost function After(codec: Codec, s: Session, e: Event): (r: Session)
    requires Usable(s)
  {
    match e
    case Save(cp, cleanup) => Saved(codec, s, cp, cleanup, CleanupListing(codec, s, cp))
    case CrashedSave(cp, cleanup, i, k) =>
      Session(CrashAt(s.disk, SavePrims(codec, s, cp, cleanup, CleanupListing(codec, s, cp)), i, k), None)
    case Load(i, k) => Session(CrashAt(s.disk, OpenPrims(s.disk.wal), i, k), None)
  }

  ghost function History(codec: Codec, events: seq<Event>): (s: Session) {
    if events == [] then Session(Disk(map[], None), None)
    else
      var s := History(codec, events[..|events| - 1]);
      if Usable(s) then After(codec, s, events[|events| - 1]) else s
  }

  lemma HistorySnoc(codec: Codec, events: seq<Event>, e: Event, all: seq<Event>)
    requires all == events + [e] && Usable(History(codec, events))
    ensures History(codec, all) == After(codec, History(codec, events), e)
  {
    assert all[..|all| - 1] == events && all[|all| - 1] == e;
  }

  /** What a reader may resume from: the last finished save, or any save attempted since. */
  function Candidates(events: seq<Event>): (r: set<Option<Checkpoint>>) {
    if events == [] then {None}
    else
      match events[|events| - 1]
      case Save(cp, _) => {Some(cp)}
      case CrashedSave(cp, _, _, _) => Candidates(events[..|events| - 1]) + {Some(cp)}
      case Load(_, _) => Candidates(events[..|events| - 1])
  }

  /** Every save is at or after the turn that a reader would resume from at that time, as it is when each
    * run goes on from there.  Torn snapshots may be of any turn. */
  ghost predicate CarriesOn(codec: Codec, events: seq<Event>) {
    events != [] ==>
      var d, e := History(codec, events[..|events| - 1]).disk, events[|events| - 1];
      && CarriesOn(codec, events[..|events| - 1])
      && (!e.Load? ==> Fits(codec, e.cp) && (Best(codec, d).Some? ==> Best(codec, d).value.turn <= e.cp.turn))
  }

  /** A finished save lasts, and one that is cut off is crash-proof. */
  ghost predicate IsGuarded(codec: Codec, s: Session, e: Event) {
    match e
    case Save(cp, cleanup) => Lasts(s.disk, cp.turn, cleanup, CleanupListing(codec, s, cp))
    case CrashedSave(cp, cleanup, _, _) => CrashProof(codec, s.disk, cp.turn, cleanup, CleanupListing(codec, s, cp))
    case Load(_, _) => true
  }

  ghost predicate Guarded(codec: Codec, events: seq<Event>) {
    events != [] ==>
      && Guarded(codec, events[..|events| - 1])
      && IsGuarded(codec, History(codec, events[..|events| - 1]), events[|events| - 1])
  }

  /** Opening the log, finished or not, changes nothing for a reader. */
  lemma LoadIsSafe(codec: Codec, s: Session, i: nat, k: nat)
    requires Lawful(codec) && SessionOk(codec, s)
    ensures var d' := CrashAt(s.disk, OpenPrims(s.disk.wal), i, k);
      SessionOk(codec, Session(d', None)) && d'.files == s.disk.files && Best(codec, d') == Best(codec, s.disk)
  {
    if Dead(s.disk.wal) {
      assert OpenPrims(s.disk.wal) == [];
    } else {
      var _ := OpenCrash(codec, s.disk, i, k);
    }
  }

  /** One event: the directory stays in order, and if the event is guarded a reader gets a candidate. */
  lemma EventIsSafe(codec: Codec, s: Session, e: Event)
    requires Lawful(codec) && SessionOk(codec, s) && Usable(s)
    requires !e.Load? ==> UpTo(codec, s.disk, e.cp.turn) && Fits(codec, e.cp)
    ensures SessionOk(codec, After(codec, s, e))
    ensures IsGuarded(codec, s, e) ==>
      Best(codec, After(codec, s, e).disk) in
        match e
        case Save(cp, _) => {Some(cp)}
        case CrashedSave(cp, _, _, _) => {Best(codec, s.disk), Some(cp)}
        case Load(_, _) => {Best(codec, s.disk)}
  {
    match e
    case Save(cp, cleanup) =>
      FinishedSaveIff(codec, s, cp, cleanup, CleanupListing(codec, s, cp));
    case CrashedSave(cp, cleanup, i, k) =>
      CrashSafeSave(codec, s, cp, cleanup, CleanupListing(codec, s, cp), i, k);
    case Load(i, k) =>
      LoadIsSafe(codec, s, i, k);
  }

  lemma StartIsOk(codec: Codec)
    requires Lawful(codec)
    ensures var s := History(codec, []); SessionOk(codec, s) && Usable(s) && Best(codec, s.disk) == None
  {
    NoContents(codec, None);
    var s := History(codec, []);
    assert s == Session(Disk(map[], None), None);
    BestIs(codec, s.disk, None);
  }

  /** In every history the directory stays in order. */
  lemma {:induction false} HistoryIsOk(codec: Codec, events: seq<Event>)
    requires Lawful(codec) && CarriesOn(codec, events)
    ensures SessionOk(codec, History(codec, events)) && Usable(History(codec, events))
  {
    if events == [] {
      StartIsOk(codec);
    } else {
      var before, e := events[..|events| - 1], events[|events| - 1];
      HistoryIsOk(codec, before);
      if !e.Load? {
        UpToIff(codec, History(codec, before).disk, e.cp.turn);
      }
      EventIsSafe(codec, History(codec, before), e);
      SessionHandle(codec, History(codec, events));
    }
  }

  /** Over any history of saves, crashes and reloads in which runs go on from what they find, torn
    * snapshots and all, a reader resumes from the last finished save or from one attempted after it:
    * never from an older one, and never from nothing once a save has finished. */
  lemma {:induction false} ResumeNeverGoesBack(codec: Codec, events: seq<Event>)
    requires Lawful(codec) && CarriesOn(codec, events) && Guarded(codec, events)
    ensures Best(codec, History(codec, events).disk) in Candidates(events)
  {
    if events == [] {
      StartIsOk(codec);
    } else {
      var before, e := events[..|events| - 1], events[|events| - 1];
      ResumeNeverGoesBack(codec, before);
      HistoryIsOk(codec, before);
      if !e.Load? {
        UpToIff(codec, History(codec, before).disk, e.cp.turn);
      }
      EventIsSafe(codec, History(codec, before), e);
    }
  }

  // ── The condition is needed ───────────────────────────────────────

  predicate OnlyLoads(events: seq<Event>) {
    forall i | 0 <= i < |events| :: events[i].Load?
  }

  lemma LoadAtEnd(codec: Codec, events: seq<Event>, e: Event, all: seq<Event>)
    requires Lawful(codec) && SessionOk(codec, History(codec, events)) && e.Load? && all == events + [e]
    ensures SessionOk(codec, History(codec, all))
    ensures Best(codec, History(codec, all).disk) == Best(codec, History(codec, events).disk)
  {
    SessionHandle(codec, History(codec, events));
    HistorySnoc(codec, events, e, all);
    LoadIsSafe(codec, History(codec, events), e.i, e.k);
  }

  lemma {:induction false} LoadsChangeNothing(codec: Codec, events: seq<Event>, loads: seq<Event>, all: seq<Event>,
                                               best: Option<Checkpoint>)
    requires Lawful(codec) && SessionOk(codec, History(codec, events)) && OnlyLoads(loads) && all == events + loads
    requires Best(codec, History(codec, events).disk) == best
    ensures Best(codec, History(codec, all).disk) == best
    decreases |loads|
  {
    if |loads| == 0 {
      assert all == events;
    } else {
      var first := FirstLoad(events, loads, all);
      LoadAtEnd(codec, events, loads[0], first);
      LoadsChangeNothing(codec, first, loads[1..], all, best);
    }
  }

  lemma FirstLoad(events: seq<Event>, loads: seq<Event>, all: seq<Event>) returns (first: seq<Event>)
    requires |loads| > 0 && OnlyLoads(loads) && all == events + loads
    ensures first == events + [loads[0]] && OnlyLoads(loads[1..]) && all == first + loads[1..]
  {
    first := events + [loads[0]];
  }

  /** Whatever came before, a reader resumes from the last save, if it finished, exactly if that save
    * lasts: the log opens, or there is no clean-up, or clean-up leaves the file. */
  lemma ResumesFromLastSaveIff(codec: Codec, before: seq<Event>, cp: Checkpoint, cleanup: bool, loads: seq<Event>)
    requires Lawful(codec) && CarriesOn(codec, before + [Save(cp, cleanup)]) && OnlyLoads(loads)
    ensures var s := History(codec, before);
      Best(codec, History(codec, before + [Save(cp, cleanup)] + loads).disk) == Some(cp)
      <==> Lasts(s.disk, cp.turn, cleanup, CleanupListing(codec, s, cp))
  {
    var events, s := before + [Save(cp, cleanup)], History(codec, before);
    assert events[..|events| - 1] == before && events[|events| - 1] == Save(cp, cleanup);
    HistoryIsOk(codec, before);
    HistorySnoc(codec, before, Save(cp, cleanup), events);
    UpToIff(codec, s.disk, cp.turn);
    FinishedSaveIff(codec, s, cp, cleanup, CleanupListing(codec, s, cp));
    LoadsChangeNothing(codec, events, loads, events + loads, Best(codec, History(codec, events).disk));
  }

  /** Whatever came before, if the next save is not crash-proof, it can be cut off so that a reader goes
    * back to an older turn than before. */
  lemma NextSaveGoesBack(codec: Codec, before: seq<Event>, cp: Checkpoint, cleanup: bool) returns (e: Event)
    requires Lawful(codec) && CarriesOn(codec, before + [Save(cp, cleanup)])
    requires var s := History(codec, before);
      !CrashProof(codec, s.disk, cp.turn, cleanup, CleanupListing(codec, s, cp))
    ensures e.CrashedSave? && e.cp == cp && e.cleanup == cleanup
    ensures var d, d' := History(codec, before).disk, History(codec, before + [e]).disk;
      Best(codec, d).Some? && GoesBack(codec, d, d', Best(codec, d).value.turn)
  {
    var events, s := before + [Save(cp, cleanup)], History(codec, before);
    assert events[..|events| - 1] == before && events[|events| - 1] == Save(cp, cleanup);
    HistoryIsOk(codec, before);
    UpToIff(codec, s.disk, cp.turn);
    var i, k := CrashGoesBack(codec, s, cp, cleanup, CleanupListing(codec, s, cp));
    e := CrashedSave(cp, cleanup, i, k);
    HistorySnoc(codec, before, e, before + [e]);
  }

  // ── When it is met ────────────────────────────────────────────────

  /** After a finished save the log, if it opens, has that turn: the same turn may be saved again. */
  lemma FinishedIsBacked(codec: Codec, s: Session, cp: Checkpoint, cleanup: bool, l: Listing)
    requires Lawful(codec) && SessionOk(codec, s) && Fits(codec, cp) && Usable(s) && !Dead(s.disk.wal)
    ensures Backed(codec, Saved(codec, s, cp, cleanup, l).disk, cp.turn)
  {
    var log := SaveParts(codec, s, cp, cleanup, l);
    SavedIs(codec, s.disk, cp, log, Removed(cleanup, l));
  }

  /** With a log that opens it is enough that files which are overwritten are backed by it; with one that
    * does not, that the turn is below 1000 and no file has a newer name. */
  ghost predicate IsPlain(codec: Codec, s: Session, e: Event) {
    !e.Load? ==>
      && (e.CrashedSave? ==> Backed(codec, s.disk, e.cp.turn))
      && (Dead(s.disk.wal) && e.cleanup ==> e.cp.turn < 1000 && forall t | t in s.disk.files :: t <= e.cp.turn)
  }

  lemma PlainIsGuarded(codec: Codec, s: Session, e: Event)
    requires IsPlain(codec, s, e)
    ensures IsGuarded(codec, s, e)
  {
    if !e.Load? && Dead(s.disk.wal) && e.cleanup {
      var files := Written1(codec, s.disk, e.cp).files;
      SmallTurnsSortLast(files, e.cp.turn);
      LastNameSurvives(files, CleanupListing(codec, s, e.cp), e.cp.turn);
    }
  }

  lemma {:induction false} SmallTurnsAreGuarded(codec: Codec, events: seq<Event>)
    requires forall i | 0 <= i < |events| :: IsPlain(codec, History(codec, events[..i]), events[i])
    ensures Guarded(codec, events)
  {
    if events != [] {
      var n := |events| - 1;
      forall i | 0 <= i < n ensures IsPlain(codec, History(codec, events[..n][..i]), events[..n][i]) {
        assert events[..n][..i] == events[..i];
      }
      SmallTurnsAreGuarded(codec, events[..n]);
      PlainIsGuarded(codec, History(codec, events[..n]), events[n]);
    }
  }

  // ── Where it is not: a snapshot that the log does not back ────────

  /** A crash in the first save, right after its snapshot file, and then one at the start of a second
    * save of the same turn, as by a run that resumes and is stopped at once: nothing is left. */
  lemma RewriteLosesAll(codec: Codec, cp: Checkpoint, again: Checkpoint, cleanup: bool, first: Event, second: Event)
    requires Lawful(codec) && Fits(codec, cp) && Fits(codec, again) && again.turn == cp.turn
    requires first == CrashedSave(cp, cleanup, 1, 0) && second == CrashedSave(again, cleanup, 0, 0)
    ensures Best(codec, History(codec, [first]).disk) == Some(cp)
    ensures Best(codec, History(codec, [first, second]).disk) == None
  {
    var s1 := AfterFirstFile(codec, cp, cleanup, first);
    var s2 := RewriteAtStart(codec, s1, again, cleanup, second);
    NothingWhole(codec, s2.disk);
    TwoEvents(codec, first, second, s1, s2);
  }

  lemma TwoEvents(codec: Codec, first: Event, second: Event, s1: Session, s2: Session)
    requires After(codec, History(codec, []), first) == s1 && Usable(History(codec, [])) && Usable(s1)
    requires After(codec, s1, second) == s2
    ensures History(codec, [first]) == s1 && History(codec, [first, second]) == s2
  {
    HistorySnoc(codec, [], first, [first]);
    HistorySnoc(codec, [first], second, [first, second]);
  }

  lemma AfterFirstFile(codec: Codec, cp: Checkpoint, cleanup: bool, e: Event) returns (s1: Session)
    requires Lawful(codec) && Fits(codec, cp) && e == CrashedSave(cp, cleanup, 1, 0)
    ensures After(codec, History(codec, []), e) == s1 && Usable(History(codec, []))
    ensures s1.disk.wal == None && s1.handle == None && s1.disk.files.Keys == {cp.turn}
    ensures Best(codec, s1.disk) == Some(cp)
  {
    var s := Session(Disk(map[], None), None);
    var l, d1 := CleanupListing(codec, s, cp), Written1(codec, s.disk, cp);
    NoContents(codec, None);
    var log := WalUpdate(codec, s, codec.encode(cp)).0;
    var rest := log + (if cleanup then CleanupPrims(l) else []);
    assert log[0] == CreateWal && rest[0] == CreateWal;
    FirstOrLater(codec, s.disk, cp, rest, SavePrims(codec, s, cp, cleanup, l), 1, 0);
    assert CrashAt(d1, rest, 0, 0) == d1;
    TopIsNewest(codec, d1.files, cp);
    BestIs(codec, d1, Some(cp));
    s1 := Session(d1, None);
  }

  lemma RewriteAtStart(codec: Codec, s: Session, cp: Checkpoint, cleanup: bool, e: Event) returns (s2: Session)
    requires Usable(s) && e == CrashedSave(cp, cleanup, 0, 0)
    requires s.disk.wal == None && s.disk.files.Keys == {cp.turn}
    ensures After(codec, s, e) == s2
    ensures s2.disk.wal == None && forall t | t in s2.disk.files :: s2.disk.files[t] == []
  {
    var ps := SavePrims(codec, s, cp, cleanup, CleanupListing(codec, s, cp));
    FirstOrLater(codec, s.disk, cp, ps[1..], ps, 0, 0);
    assert Cut(codec.encode(cp), 0) == [];
    s2 := After(codec, s, e);
    assert s2.disk.files.Keys == {cp.turn};
  }

  lemma NothingWhole(codec: Codec, d: Disk)
    requires Lawful(codec) && d.wal == None && forall t | t in d.files :: d.files[t] == []
    ensures Best(codec, d) == None
  {
    NoContents(codec, None);
    assert FromSlice(codec, Zeros(0)).None?;
    BestIs(codec, d, None);
  }

  // ── Where it is not: a log that does not open ─────────────────────

  /** A crash in the very first save, after the log file was sized and before its magic is
    * in, leaves a log that does not open. */
  lemma DeadLogIsReachable(codec: Codec, cp: Checkpoint)
    requires Lawful(codec) && Fits(codec, cp)
    ensures Dead(History(codec, [CrashedSave(cp, true, 2, 1)]).disk.wal)
  {
    var s := Session(Disk(map[], None), None);
    var e := CrashedSave(cp, true, 2, 1);
    assert [e][..0] == [];
    assert History(codec, [e][..0]) == s;
    var write, l := WriteFile(cp.turn, codec.encode(cp)), CleanupListing(codec, s, cp);
    var d1 := Written1(codec, s.disk, cp);
    assert Apply(s.disk, write) == d1;
    var log := WalUpdate(codec, s, codec.encode(cp)).0;
    NoContents(codec, None);
    assert log[0] == CreateWal && log[1] == SetLen(INITIAL_SIZE);
    var later := log + CleanupPrims(l);
    CrashAtCons(s.disk, write, later, 2, 1);
    assert later == [CreateWal] + ([SetLen(INITIAL_SIZE)] + later[2..]);
    CrashAtCons(d1, CreateWal, [SetLen(INITIAL_SIZE)] + later[2..], 1, 1);
    var d2 := d1.(wal := Some([]));
    assert Apply(d1, CreateWal) == d2;
    CrashAtCons(d2, SetLen(INITIAL_SIZE), later[2..], 0, 1);
    var z := Extend([], INITIAL_SIZE);
    assert Torn(d2, SetLen(INITIAL_SIZE), 1) == d2.(wal := Some(z));
    assert z[..4][0] == 0;
  }

  /** And it stays that way: no event repairs or replaces it. */
  lemma DeadLogStays(codec: Codec, s: Session, e: Event)
    requires Lawful(codec) && SessionOk(codec, s) && Usable(s) && Dead(s.disk.wal)
    requires !e.Load? ==> Fits(codec, e.cp)
    ensures After(codec, s, e).disk.wal == s.disk.wal
  {
    match e
    case Load(i, k) => assert OpenPrims(s.disk.wal) == [];
    case Save(cp, cleanup) =>
      var l := CleanupListing(codec, s, cp);
      var log := SaveParts(codec, s, cp, cleanup, l);
      SavedIs(codec, s.disk, cp, log, Removed(cleanup, l));
    case CrashedSave(cp, cleanup, i, k) =>
      var l := CleanupListing(codec, s, cp);
      var log := SaveParts(codec, s, cp, cleanup, l);
      DeadLogStaysParts(codec, s.disk, cp, log, Removed(cleanup, l), SavePrims(codec, s, cp, cleanup, l), i, k);
  }

  lemma DeadLogStaysParts(codec: Codec, d: Disk, cp: Checkpoint, log: seq<Prim>, removed: Listing, ps: seq<Prim>,
                          i: nat, k: nat)
    requires Lawful(codec) && WalOk(codec, d.wal) && Dead(d.wal) && LogSafe(codec, Written1(codec, d, cp), log, cp)
    requires ps == [WriteFile(cp.turn, codec.encode(cp))] + (log + RemovePrims(removed))
    ensures CrashAt(d, ps, i, k).wal == d.wal
  {
    FirstOrLater(codec, d, cp, log + RemovePrims(removed), ps, i, k);
    if i > 0 {
      CrashIsMidway(codec, d, cp, log, removed, i - 1, k);
    }
  }

  /** The snapshots from before that clean-up leaves. */
  function Survivors(d: Disk, turn: nat, l: Listing): (files: map<nat, seq<byte>>) {
    map t | t in d.files && t != turn && !Retention.IsRemoved(l, KEEP, t) :: d.files[t]
  }

  /** What a reader gets when clean-up takes the file of a save whose log does not open: the newest whole
    * one of the older snapshots that it leaves. */
  lemma LostSaveGoesBack(codec: Codec, s: Session, cp: Checkpoint, l: Listing)
    requires Lawful(codec) && SessionOk(codec, s) && Fits(codec, cp) && Usable(s) && UpTo(codec, s.disk, cp.turn)
    requires Dead(s.disk.wal) && Retention.IsRemoved(l, KEEP, cp.turn)
    ensures IsTop(codec, Survivors(s.disk, cp.turn, l), Best(codec, Saved(codec, s, cp, true, l).disk))
  {
    var d' := Saved(codec, s, cp, true, l).disk;
    var log := SaveParts(codec, s, cp, true, l);
    SavedIs(codec, s.disk, cp, log, Removed(true, l));
    LeftIsOk(codec, s.disk, d', cp);
    DeadIsTop(codec, d');
    assert d'.files == Survivors(s.disk, cp.turn, l);
  }

  /** A log that never opens, five or more snapshots, and a finished save whose file sorts before all
    * of them: clean-up removes it. */
  lemma DeadLogLosesFirstName(codec: Codec, s: Session, cp: Checkpoint, l: Listing)
    requires Lawful(codec) && SessionOk(codec, s) && Usable(s) && Fits(codec, cp) && UpTo(codec, s.disk, cp.turn)
    requires Dead(s.disk.wal) && |s.disk.files| >= KEEP && IsListing(Written1(codec, s.disk, cp).files, l)
    requires forall t | t in s.disk.files :: NameLess(cp.turn, t)
    ensures Best(codec, Saved(codec, s, cp, true, l).disk) != Some(cp)
    ensures IsTop(codec, Survivors(s.disk, cp.turn, l), Best(codec, Saved(codec, s, cp, true, l).disk))
  {
    FirstIsTaken(codec, s.disk, cp, l);
    FinishedSaveIff(codec, s, cp, true, l);
    LostSaveGoesBack(codec, s, cp, l);
  }

  lemma FirstIsTaken(codec: Codec, d: Disk, cp: Checkpoint, l: Listing)
    requires |d.files| >= KEEP && IsListing(Written1(codec, d, cp).files, l)
    requires forall t | t in d.files :: NameLess(cp.turn, t)
    ensures Retention.IsRemoved(l, KEEP, cp.turn)
  {
    Names.TextLessIsStrict(Names.SnapshotName(cp.turn), Names.SnapshotName(cp.turn));
    var files := Written1(codec, d, cp).files;
    assert files.Keys == d.files.Keys + {cp.turn} && cp.turn !in d.files;
    FirstNameIsTaken(files, l, cp.turn);
  }

  lemma ThousandIsFirst(files: set<nat>, turn: nat)
    requires turn == 1000 && forall t | t in files :: 101 <= t < 1000
    ensures forall t | t in files :: NameLess(turn, t)
  {
    forall t | t in files ensures NameLess(turn, t) {
      Names.ThousandSortsBefore(t);
    }
  }

  /** Then a reader gets an older turn: the one it would have got before the save, if that is the newest
    * file. */
  lemma OlderIsRead(codec: Codec, s: Session, cp: Checkpoint, l: Listing)
    requires Lawful(codec) && SessionOk(codec, s) && Usable(s) && Fits(codec, cp) && UpTo(codec, s.disk, cp.turn)
    requires Dead(s.disk.wal) && |s.disk.files| >= KEEP && IsListing(Written1(codec, s.disk, cp).files, l)
    requires forall t | t in s.disk.files :: NameLess(cp.turn, t) && t < cp.turn && t < 1000
    ensures ReadsOlder(codec, s.disk, Saved(codec, s, cp, true, l).disk, cp.turn)
  {
    DeadLogLosesFirstName(codec, s, cp, l);
    OlderIsLeft(codec, s.disk, Saved(codec, s, cp, true, l).disk, cp, l);
  }

  ghost predicate ReadsOlder(codec: Codec, d: Disk, d': Disk, turn: nat) {
    && (Best(codec, d').Some? ==> Best(codec, d').value.turn < turn)
    && (Best(codec, d).Some? && (forall t | t in d.files :: t <= Best(codec, d).value.turn) ==>
          Best(codec, d') == Best(codec, d))
  }

  lemma OlderIsLeft(codec: Codec, d: Disk, d': Disk, cp: Checkpoint, l: Listing)
    requires Lawful(codec) && FilesOk(codec, d.files) && Dead(d.wal)
    requires IsListing(Written1(codec, d, cp).files, l)
    requires forall t | t in d.files :: NameLess(cp.turn, t) && t < cp.turn && t < 1000
    requires IsTop(codec, Survivors(d, cp.turn, l), Best(codec, d'))
    ensures ReadsOlder(codec, d, d', cp.turn)
  {
    var now, was := Best(codec, d'), Best(codec, d);
    if now.Some? {
      assert now.value.turn in Survivors(d, cp.turn, l);
    }
    if was.Some? && forall t | t in d.files :: t <= was.value.turn {
      DeadIsTop(codec, d);
      assert was.value.turn in d.files;
      NewestNameStays(codec, d, cp, l, was.value.turn);
      OldBestStays(codec, d, cp.turn, l, now);
    }
  }

  /** So it is with turn 1000 after turns 101 to 999. */
  lemma DeadLogLosesTurn1000(codec: Codec, s: Session, cp: Checkpoint, l: Listing)
    requires Lawful(codec) && SessionOk(codec, s) && Usable(s) && Fits(codec, cp)
    requires Dead(s.disk.wal) && |s.disk.files| >= KEEP && cp.turn == 1000
    requires forall t | t in s.disk.files :: 101 <= t < 1000
    requires IsListing(Written1(codec, s.disk, cp).files, l)
    ensures Best(codec, Saved(codec, s, cp, true, l).disk) != Some(cp)
    ensures ReadsOlder(codec, s.disk, Saved(codec, s, cp, true, l).disk, cp.turn)
  {
    NoContents(codec, s.disk.wal);
    ThousandIsFirst(s.disk.files.Keys, cp.turn);
    OlderIsRead(codec, s, cp, l);
  }

  lemma NewestNameStays(codec: Codec, d: Disk, cp: Checkpoint, l: Listing, t: nat)
    requires IsListing(Written1(codec, d, cp).files, l) && t in d.files && t < 1000
    requires NameLess(cp.turn, t) && forall u | u in d.files :: u <= t
    ensures !Retention.IsRemoved(l, KEEP, t)
  {
    var files := Written1(codec, d, cp).files;
    forall u | u in files && u != t ensures NameLess(u, t) {
      if u != cp.turn {
        Names.SmallNamesSortByTurn(u, t);
      }
    }
    LastNameSurvives(files, l, t);
  }

  lemma OldBestStays(codec: Codec, d: Disk, turn: nat, l: Listing, now: Option<Checkpoint>)
    requires Lawful(codec) && FilesOk(codec, d.files) && Dead(d.wal) && Best(codec, d).Some?
    requires Best(codec, d).value.turn != turn && !Retention.IsRemoved(l, KEEP, Best(codec, d).value.turn)
    requires IsTop(codec, Survivors(d, turn, l), now)
    ensures now == Best(codec, d)
  {
    DeadIsTop(codec, d);
    var left := Survivors(d, turn, l);
    forall t | t in left ensures FromFile(codec, left, t) == FromFile(codec, d.files, t) {}
    assert IsTop(codec, left, Best(codec, d));
    TopIsUnique(codec, left, now, Best(codec, d));
  }
}
