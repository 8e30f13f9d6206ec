/** Resuming from the checkpoint files, and what every crash leaves to resume from. */
module CheckpointRecovery {
  import opened Wrappers
  import opened WalFormat
  import opened Wal
  import opened CheckpointDisk
  import Retention

  // ── Loading ───────────────────────────────────────────────────────

  /** The file whose name carries the highest turn. */
  function NewestTurn(listing: seq<Retention.Snapshot>): (t: nat)
    requires listing != []
  {
    if |listing| == 1 then listing[0].turn
    else
      var t := NewestTurn(listing[..|listing| - 1]);
      var last := listing[|listing| - 1].turn;
      if last >= t then last else t
  }

  function FromFile(codec: Codec, files: map<nat, seq<byte>>, t: nat): Option<Checkpoint> {
    if t in files then FromSlice(codec, files[t]) else None
  }

  function Better(best: Option<Checkpoint>, c: Option<Checkpoint>): Option<Checkpoint> {
    match (best, c)
    case (_, None) => best
    case (None, _) => c
    case (Some(b), Some(x)) =>
      if x.turn > b.turn || (x.turn == b.turn && x.messages > b.messages) then c else best
  }

  /** The slow scan: the best checkpoint over every file that parses. */
  function BestOf(codec: Codec, files: map<nat, seq<byte>>, listing: seq<Retention.Snapshot>): (r: Option<Checkpoint>) {
    if listing == [] then None
    else
      var n := |listing| - 1;
      Better(BestOf(codec, files, listing[..n]), FromFile(codec, files, listing[n].turn))
  }

  function FileBest(codec: Codec, files: map<nat, seq<byte>>, listing: seq<Retention.Snapshot>)
    : (r: Option<Checkpoint>)
  {
    if listing == [] then None
    else
      match FromFile(codec, files, NewestTurn(listing))
      case Some(cp) => Some(cp)
      case None => BestOf(codec, files, listing)
  }

  /** What the log holds for a reader that opens it: nothing if it is missing or damaged. */
  function WalContents(codec: Codec, wal: Option<seq<byte>>): (cps: seq<Checkpoint>) {
    match OpenWal(wal)
    case Ok(h) => if HEADER_SIZE <= |h.data| then All(codec, h.data) else []
    case Err(_) => []
  }

  function WalLatest(codec: Codec, wal: Option<seq<byte>>): (r: Option<Checkpoint>) {
    Last(WalContents(codec, wal))
  }

  /** The checkpoint to resume from. */
  function LoadBest(codec: Codec, d: Disk, listing: seq<Retention.Snapshot>): (r: Option<Checkpoint>) {
    Choose(FileBest(codec, d.files, listing), WalLatest(codec, d.wal))
  }

  function Choose(file: Option<Checkpoint>, wal: Option<Checkpoint>): (r: Option<Checkpoint>) {
    match (file, wal)
    case (Some(f), Some(w)) => if w.turn >= f.turn then wal else file
    case (Some(_), None) => file
    case (None, _) => wal
  }

  // ── What a reachable directory looks like ─────────────────────────

  /** A snapshot file that parses holds the turn its name says; a torn one does not parse. */
  ghost predicate FilesOk(codec: Codec, files: map<nat, seq<byte>>) {
    forall t | t in files :: FromFile(codec, files, t).Some? ==> FromFile(codec, files, t).value.turn == t
  }

  ghost predicate Sound(codec: Codec, cps: seq<Checkpoint>) {
    forall i | 0 <= i < |cps| :: Fits(codec, cps[i])
  }

  /** The log opens. */
  ghost predicate Live(codec: Codec, b: seq<byte>, recs: seq<seq<byte>>) {
    && INITIAL_SIZE <= |b|
    && Image(b, recs)
    && Sound(codec, Decoded(codec, recs))
  }

  /** The file was sized but a crash came before the whole magic was in: it never opens. */
  predicate Dead(wal: Option<seq<byte>>) {
    wal.Some? && INITIAL_SIZE <= |wal.value| && wal.value[..4] != MAGIC
  }

  ghost predicate WalOk(codec: Codec, wal: Option<seq<byte>>) {
    || wal.None?
    || wal.value == []
    || Dead(wal)
    || exists recs :: Live(codec, wal.value, recs)
  }

  /** The directory is in order and the cached handle, if any, mirrors the log file. */
  ghost predicate SessionOk(codec: Codec, s: Session) {
    && FilesOk(codec, s.disk.files)
    && WalOk(codec, s.disk.wal)
    && (s.handle.Some? ==>
          && s.disk.wal == Some(s.handle.value.data)
          && exists recs :: Holds(s.handle.value, recs) && Live(codec, s.handle.value.data, recs))
  }

  // ── Files ─────────────────────────────────────────────────────────

  /** `r` is the parseable file with the highest turn, or none parses. */
  ghost predicate IsTop(codec: Codec, files: map<nat, seq<byte>>, r: Option<Checkpoint>) {
    && (r.Some? ==> FromFile(codec, files, r.value.turn) == r)
    && (forall t | t in files && FromFile(codec, files, t).Some? :: r.Some? && t <= r.value.turn)
  }

  lemma {:induction false} NewestTurnIsMax(listing: seq<Retention.Snapshot>)
    requires listing != []
    ensures exists i :: 0 <= i < |listing| && listing[i].turn == NewestTurn(listing)
    ensures forall i | 0 <= i < |listing| :: listing[i].turn <= NewestTurn(listing)
  {
    var n := |listing| - 1;
    if n > 0 {
      NewestTurnIsMax(listing[..n]);
      var i :| 0 <= i < n && listing[..n][i].turn == NewestTurn(listing[..n]);
      assert listing[i].turn == NewestTurn(listing[..n]);
      forall j | 0 <= j < n ensures listing[j].turn <= NewestTurn(listing[..n]) {
        assert listing[..n][j] == listing[j];
      }
    }
    assert NewestTurn(listing) == listing[n].turn || n > 0;
  }

  lemma {:induction false} BestOfIsTop(codec: Codec, files: map<nat, seq<byte>>, listing: seq<Retention.Snapshot>)
    requires FilesOk(codec, files)
    requires forall i | 0 <= i < |listing| :: listing[i].turn in files
    ensures var r := BestOf(codec, files, listing);
      && (r.Some? ==> FromFile(codec, files, r.value.turn) == r)
      && (forall i | 0 <= i < |listing| && FromFile(codec, files, listing[i].turn).Some? ::
            r.Some? && listing[i].turn <= r.value.turn)
  {
    if listing != [] {
      var n := |listing| - 1;
      var head := listing[..n];
      assert forall i | 0 <= i < n :: head[i] == listing[i];
      BestOfIsTop(codec, files, head);
      var b, c := BestOf(codec, files, head), FromFile(codec, files, listing[n].turn);
      forall i | 0 <= i < |listing| && FromFile(codec, files, listing[i].turn).Some?
        ensures BestOf(codec, files, listing).Some?
             && listing[i].turn <= BestOf(codec, files, listing).value.turn
      {
        if i < n { assert head[i] == listing[i]; }
      }
    }
  }

  /** Parsing only the newest file, or all of them if it does not parse, finds the parseable
    * file with the highest turn. */
  lemma FileBestIsTop(codec: Codec, files: map<nat, seq<byte>>, listing: seq<Retention.Snapshot>)
    requires FilesOk(codec, files) && IsListing(files, listing)
    ensures IsTop(codec, files, FileBest(codec, files, listing))
  {
    BestOfIsTop(codec, files, listing);
    if listing != [] {
      NewestTurnIsMax(listing);
    }
    forall t | t in files && FromFile(codec, files, t).Some?
      ensures FileBest(codec, files, listing).Some? && t <= FileBest(codec, files, listing).value.turn
    {
      var i :| 0 <= i < |listing| && listing[i].turn == t;
    }
  }

  lemma TopIsUnique(codec: Codec, files: map<nat, seq<byte>>, r: Option<Checkpoint>, r': Option<Checkpoint>)
    requires IsTop(codec, files, r) && IsTop(codec, files, r')
    ensures r == r'
  {
    if r.Some? { assert r.value.turn in files; }
    if r'.Some? { assert r'.value.turn in files; }
  }

  /** A file that does not parse changes nothing. */
  lemma TopWithTornFile(codec: Codec, files: map<nat, seq<byte>>, t: nat, bs: seq<byte>, r: Option<Checkpoint>)
    requires FilesOk(codec, files) && FromFile(codec, files, t).None? && FromSlice(codec, bs).None?
    requires IsTop(codec, files, r)
    ensures FilesOk(codec, files[t := bs]) && IsTop(codec, files[t := bs], r)
  {
    var files' := files[t := bs];
    forall u | u in files' ensures u == t || FromFile(codec, files', u) == FromFile(codec, files, u) {}
  }

  /** A whole file with no newer whole file is the best. */
  lemma TopIsNewest(codec: Codec, files: map<nat, seq<byte>>, cp: Checkpoint)
    requires FromFile(codec, files, cp.turn) == Some(cp)
    requires forall t | t in files && FromFile(codec, files, t).Some? :: t <= cp.turn
    ensures IsTop(codec, files, Some(cp))
  {
  }

  // ── The log ───────────────────────────────────────────────────────

  function Kept(latest: Option<Checkpoint>): (cps: seq<Checkpoint>) {
    if latest.Some? then [latest.value] else []
  }

  /** The log is in order and holds what it held before, nothing, the latest of that, or the latest of that
    * and then the new checkpoint. */
  ghost predicate WalBetween(codec: Codec, wal: Option<seq<byte>>, before: seq<Checkpoint>, cp: Checkpoint) {
    && WalOk(codec, wal)
    && WalContents(codec, wal) in {before, [], Kept(Last(before)), Kept(Last(before)) + [cp]}
  }

  lemma BetweenLatest(codec: Codec, wal: Option<seq<byte>>, before: seq<Checkpoint>, cp: Checkpoint)
    requires WalBetween(codec, wal, before, cp)
    ensures WalLatest(codec, wal) in {None, Last(before), Some(cp)}
  {
  }

  lemma LiveIsOk(codec: Codec, b: seq<byte>, recs: seq<seq<byte>>)
    requires Live(codec, b, recs)
    ensures WalOk(codec, Some(b))
  {
    assert Live(codec, Some(b).value, recs);
  }

  lemma LiveContents(codec: Codec, b: seq<byte>, recs: seq<seq<byte>>)
    requires Lawful(codec) && Live(codec, b, recs)
    ensures OpenBytes(b).Ok?
    ensures WalContents(codec, Some(b)) == Decoded(codec, recs)
    ensures !Dead(Some(b))
  {
    var h, recs' := OpenDecoded(codec, b, recs);
    AllIsDecoded(codec, h.data, recs');
  }

  lemma NoContents(codec: Codec, wal: Option<seq<byte>>)
    requires Lawful(codec)
    requires wal.None? || wal.value == [] || Dead(wal)
    ensures WalContents(codec, wal) == []
    ensures OpenWal(wal).Err? <==> Dead(wal)
  {
    if Dead(wal) {
      assert Extend(wal.value, |wal.value|) == wal.value;
    } else {
      OpenFresh();
      AllIsDecoded(codec, OpenBytes([]).value.data, []);
    }
  }

  lemma FreshIsLive(codec: Codec)
    ensures Live(codec, FreshBytes(), [])
    ensures Holds(Handle(FreshBytes(), HEADER_SIZE, INITIAL_SIZE, 0), [])
  {
    FreshImage();
  }

  /** While a file is being initialised it is empty, dead, or holds nothing. */
  lemma InitCrash(codec: Codec, d: Disk, i: nat, k: nat)
    requires Lawful(codec) && d.wal == Some([])
    ensures var d' := CrashAt(d, INIT_PRIMS, i, k);
      && d'.files == d.files
      && WalOk(codec, d'.wal) && WalContents(codec, d'.wal) == []
    ensures ApplyAll(d, INIT_PRIMS) == d.(wal := Some(FreshBytes()))
  {
    var z := Zeros(INITIAL_SIZE);
    var m := MAGIC + Zeros(INITIAL_SIZE - 4);
    var f := FreshBytes();
    var p0, p1, p2 := INIT_PRIMS[0], INIT_PRIMS[1], INIT_PRIMS[2];
    assert Extend([], INITIAL_SIZE) == z;
    assert WriteAt(z, 0, MAGIC) == m;
    assert WriteAt(m, 4, VERSION) == f;
    var d1, d2, d3 := d.(wal := Some(z)), d.(wal := Some(m)), d.(wal := Some(f));
    assert Apply(d, p0) == d1 && Apply(d1, p1) == d2 && Apply(d2, p2) == d3;
    assert INIT_PRIMS[1..] == [p1, p2] && [p1, p2][1..] == [p2] && [p2][1..] == [];
    assert ApplyAll(d2, [p2]) == d3;
    assert ApplyAll(d1, [p1, p2]) == d3;
    assert CrashAt(d1, [p1, p2], 1, k) == CrashAt(d2, [p2], 0, k) == Torn(d2, p2, k);
    if i == 0 {
      if k == 0 {
        NoContents(codec, d.wal);
      } else {
        SizedNoMagic(codec, z, 0);
      }
    } else if i == 1 {
      var j := if k < 4 then k else 4;
      assert CrashAt(d, INIT_PRIMS, i, k) == Torn(d1, p1, k);
      assert WriteAt(z, 0, Cut(MAGIC, k)) == MAGIC[..j] + Zeros(INITIAL_SIZE - j);
      SizedNoMagic(codec, WriteAt(z, 0, Cut(MAGIC, k)), j);
    } else if i == 2 {
      assert CrashAt(d, INIT_PRIMS, i, k) == Torn(d2, p2, k);
      HeaderOnly(codec, WriteAt(m, 4, Cut(VERSION, k)));
    } else {
      CrashPastEnd(d, INIT_PRIMS, i, k);
      HeaderOnly(codec, f);
    }
  }

  /** A sized file of which only `j` magic bytes are in is dead unless all four are. */
  lemma SizedNoMagic(codec: Codec, b: seq<byte>, j: nat)
    requires Lawful(codec) && j <= 4
    requires b == MAGIC[..j] + Zeros(INITIAL_SIZE - j)
    ensures WalOk(codec, Some(b)) && WalContents(codec, Some(b)) == []
  {
    if j < 4 {
      assert b[..4][j] == 0;
      assert MAGIC[j] != 0;
      NoContents(codec, Some(b));
    } else {
      HeaderOnly(codec, b);
    }
  }

  lemma HeaderOnly(codec: Codec, b: seq<byte>)
    requires Lawful(codec)
    requires |b| == INITIAL_SIZE && b[..4] == MAGIC && forall i | 8 <= i < |b| :: b[i] == 0
    ensures Live(codec, b, [])
    ensures WalOk(codec, Some(b)) && WalContents(codec, Some(b)) == []
  {
    assert b == Written(b, []) + Zeros(|b| - End([]));
    LiveContents(codec, b, []);
  }

  /** The log file is open under `h`, holds `recs`, and ends with `latest`. */
  ghost predicate OpenLog(codec: Codec, d: Disk, h: Handle, recs: seq<seq<byte>>, latest: Option<Checkpoint>) {
    && d.wal == Some(h.data)
    && Holds(h, recs)
    && Live(codec, h.data, recs)
    && Last(Decoded(codec, recs)) == latest
  }

  lemma OpenLogLatest(codec: Codec, d: Disk, h: Handle, recs: seq<seq<byte>>, latest: Option<Checkpoint>)
    requires Lawful(codec) && OpenLog(codec, d, h, recs, latest)
    ensures WalOk(codec, d.wal) && WalContents(codec, d.wal) == Decoded(codec, recs)
    ensures WalLatest(codec, d.wal) == latest
    ensures Latest(codec, h.data) == latest
    ensures latest.Some? ==> Fits(codec, latest.value)
  {
    LiveContents(codec, h.data, recs);
    AllIsDecoded(codec, h.data, recs);
  }

  /** The file after `k` bytes of an append. */
  lemma TornAppendIsLive(codec: Codec, h: Handle, recs: seq<seq<byte>>, cp: Checkpoint, k: nat)
    returns (recs': seq<seq<byte>>)
    requires Lawful(codec) && Holds(h, recs) && Live(codec, h.data, recs) && Fits(codec, cp)
    ensures var b := TornFile(h, codec.encode(cp), k);
      && Live(codec, b, recs')
      && WalOk(codec, Some(b))
      && WalLatest(codec, Some(b)) in {Last(Decoded(codec, recs)), Some(cp)}
      && WalContents(codec, Some(b)) in {Decoded(codec, recs), Decoded(codec, recs) + [cp]}
  {
    recs' := TornFileImage(codec, h, recs, cp, k);
    var was := Decoded(codec, recs);
    assert Decoded(codec, recs') == was || Decoded(codec, recs') == was + [cp] by {
      assert was + [] == was;
    }
    var b := TornFile(h, codec.encode(cp), k);
    assert Sound(codec, Decoded(codec, recs'));
    LiveContents(codec, b, recs');
    LiveIsOk(codec, b, recs');
    assert WalLatest(codec, Some(b)) == Last(Decoded(codec, recs'));
  }

  /** The two stores of an append, after the file has been grown. */
  lemma StoresCrash(h: Handle, p: seq<byte>, d: Disk, i: nat, k: nat)
    returns (reached: nat)
    requires h.capacity == |h.data| && d.wal == Some(Grown(h, 4 + |p|))
    ensures var ps := [Store(h.cursor, ToLe32(|p|)), Store(h.cursor + 4, p)];
      && CrashAt(d, ps, i, k) == d.(wal := Some(TornFile(h, p, reached)))
      && ApplyAll(d, ps) == d.(wal := Some(AppendTo(h, p).data))
  {
    var g := Grown(h, 4 + |p|);
    var s1, s2 := Store(h.cursor, ToLe32(|p|)), Store(h.cursor + 4, p);
    var ps := [s1, s2];
    var d1 := d.(wal := Some(WriteAt(g, h.cursor, ToLe32(|p|))));
    assert Apply(d, s1) == d1;
    assert ps[1..] == [s2] && [s2][1..] == [];
    TwoStores(g, h.cursor, p, |p|);
    assert p[..|p|] == p && Frame(p)[..4 + |p|] == Frame(p);
    assert ApplyAll(d1, [s2]) == Apply(d1, s2);
    assert CrashAt(d1, [s2], 0, k) == Torn(d1, s2, k);
    if i == 0 {
      reached := if k < 4 then k else 4;
      assert Frame(p)[..reached] == Cut(ToLe32(|p|), k);
    } else if i == 1 {
      var j := if k < |p| then k else |p|;
      reached := 4 + j;
      assert Cut(p, k) == p[..j];
      TwoStores(g, h.cursor, p, j);
    } else {
      reached := 4 + |p|;
      CrashPastEnd(d, ps, i, k);
    }
  }

  lemma TwoStores(g: seq<byte>, at: nat, p: seq<byte>, j: nat)
    requires at + 4 + |p| <= |g| && j <= |p|
    ensures WriteAt(WriteAt(g, at, ToLe32(|p|)), at + 4, p[..j]) == WriteAt(g, at, Frame(p)[..4 + j])
  {
    assert Frame(p)[..4 + j] == ToLe32(|p|) + p[..j];
  }

  /** A finished append. */
  lemma AppendOpens(codec: Codec, d: Disk, h: Handle, recs: seq<seq<byte>>, latest: Option<Checkpoint>, cp: Checkpoint)
    requires Lawful(codec) && Fits(codec, cp) && OpenLog(codec, d, h, recs, latest)
    ensures var p := codec.encode(cp);
      OpenLog(codec, d.(wal := Some(AppendTo(h, p).data)), AppendTo(h, p), recs + [p], Some(cp))
  {
    var p := codec.encode(cp);
    AppendHolds(h, recs, p);
    DecodedAppend(codec, recs, [p]);
    DecodedOne(codec, p);
    assert Decoded(codec, recs + [p]) == Decoded(codec, recs) + [cp];
  }

  /** The changes of an append: growing, if any, and then the two stores. */
  lemma AppendCrashes(h: Handle, p: seq<byte>, d: Disk, i: nat, k: nat)
    returns (grown: bool, reached: nat)
    requires h.capacity == |h.data| && d.wal == Some(h.data)
    ensures var d' := CrashAt(d, AppendPrims(h, p), i, k);
      && (grown ==> d' == d.(wal := Some(Grown(h, 4 + |p|))))
      && (!grown ==> d' == d || d' == d.(wal := Some(TornFile(h, p, reached))))
      && ApplyAll(d, AppendPrims(h, p)) == d.(wal := Some(AppendTo(h, p).data))
  {
    var g := Grown(h, 4 + |p|);
    var d0 := d.(wal := Some(g));
    var stores := [Store(h.cursor, ToLe32(|p|)), Store(h.cursor + 4, p)];
    if |g| > |h.data| {
      var grow := SetLen(|g|);
      assert Apply(d, grow) == d0;
      assert AppendPrims(h, p) == [grow] + stores;
      assert ([grow] + stores)[1..] == stores;
      grown := i == 0 && k > 0;
      reached := StoresCrash(h, p, d0, if i == 0 then 0 else i - 1, k);
    } else {
      assert AppendPrims(h, p) == stores;
      assert d0 == d;
      grown := false;
      reached := StoresCrash(h, p, d0, i, k);
    }
  }

  /** A crash inside an append, and a finished append. */
  lemma AppendCrash(codec: Codec, d: Disk, h: Handle, recs: seq<seq<byte>>, latest: Option<Checkpoint>,
                    cp: Checkpoint, i: nat, k: nat)
    requires Lawful(codec) && Fits(codec, cp) && OpenLog(codec, d, h, recs, latest)
    ensures var p := codec.encode(cp);
      var d' := CrashAt(d, AppendPrims(h, p), i, k);
      && d'.files == d.files
      && WalOk(codec, d'.wal) && WalLatest(codec, d'.wal) in {latest, Some(cp)}
      && WalContents(codec, d'.wal) in {Decoded(codec, recs), Decoded(codec, recs) + [cp]}
      && ApplyAll(d, AppendPrims(h, p)) == d.(wal := Some(AppendTo(h, p).data))
      && OpenLog(codec, d.(wal := Some(AppendTo(h, p).data)), AppendTo(h, p), recs + [p], Some(cp))
  {
    AppendOpens(codec, d, h, recs, latest, cp);
    OpenLogLatest(codec, d, h, recs, latest);
    var grown, reached := AppendCrashes(h, codec.encode(cp), d, i, k);
    if grown {
      var _ := GrownIsLive(codec, h, recs, latest, 4 + |codec.encode(cp)|);
    } else {
      var _ := TornAppendIsLive(codec, h, recs, cp, reached);
    }
  }

  lemma GrownIsLive(codec: Codec, h: Handle, recs: seq<seq<byte>>, latest: Option<Checkpoint>, n: nat)
    returns (b: seq<byte>)
    requires Lawful(codec) && Holds(h, recs) && Live(codec, h.data, recs) && Last(Decoded(codec, recs)) == latest
    ensures b == Grown(h, n)
    ensures WalOk(codec, Some(b)) && WalContents(codec, Some(b)) == Decoded(codec, recs)
  {
    b := Grown(h, n);
    GrownImage(h, recs, n);
    assert Live(codec, b, recs);
    LiveContents(codec, b, recs);
  }

  /** A crash while a missing file is created and initialised, and the finished file. */
  lemma CreateCrash(codec: Codec, d: Disk, i: nat, k: nat)
    requires Lawful(codec) && d.wal.None?
    ensures var d' := CrashAt(d, OpenPrims(None), i, k);
      && d'.files == d.files
      && WalOk(codec, d'.wal) && WalContents(codec, d'.wal) == []
      && ApplyAll(d, OpenPrims(None)) == d.(wal := Some(FreshBytes()))
  {
    var d1 := d.(wal := Some([]));
    assert Apply(d, CreateWal) == d1;
    assert OpenPrims(None)[1..] == INIT_PRIMS;
    NoContents(codec, None);
    NoContents(codec, Some([]));
    InitCrash(codec, d1, if i == 0 then 0 else i - 1, k);
  }

  const BLANK: Handle := Handle(FreshBytes(), HEADER_SIZE, INITIAL_SIZE, 0)

  /** Replacing the log by one that holds only `l`. */
  function ReplacePrims(codec: Codec, l: Checkpoint): (ps: seq<Prim>) {
    [RemoveWal] + (OpenPrims(None) + AppendPrims(BLANK, codec.encode(l)))
  }

  lemma FirstAppendCrash(codec: Codec, d: Disk, l: Checkpoint, i: nat, k: nat)
    requires Lawful(codec) && Fits(codec, l) && OpenLog(codec, d, BLANK, [], None)
    ensures var h := AppendTo(BLANK, codec.encode(l));
      var d' := CrashAt(d, AppendPrims(BLANK, codec.encode(l)), i, k);
      && d'.files == d.files
      && WalOk(codec, d'.wal) && WalContents(codec, d'.wal) in {[], [l]}
      && ApplyAll(d, AppendPrims(BLANK, codec.encode(l))) == d.(wal := Some(h.data))
      && OpenLog(codec, d.(wal := Some(h.data)), h, [] + [codec.encode(l)], Some(l))
  {
    AppendCrash(codec, d, BLANK, [], None, l, i, k);
    assert Decoded(codec, []) == [] && [] + [l] == [l];
  }

  lemma CreateAppendCrash(codec: Codec, d: Disk, l: Checkpoint, i: nat, k: nat)
    requires Lawful(codec) && Fits(codec, l) && d.wal.None?
    ensures var h := AppendTo(BLANK, codec.encode(l));
      var ps := OpenPrims(None) + AppendPrims(BLANK, codec.encode(l));
      var d' := CrashAt(d, ps, i, k);
      && d'.files == d.files
      && WalOk(codec, d'.wal) && WalContents(codec, d'.wal) in {[], [l]}
      && ApplyAll(d, ps) == d.(wal := Some(h.data))
      && OpenLog(codec, d.(wal := Some(h.data)), h, [] + [codec.encode(l)], Some(l))
  {
    var d2 := d.(wal := Some(FreshBytes()));
    var create, append := OpenPrims(None), AppendPrims(BLANK, codec.encode(l));
    var n := |create|;
    FreshIsLive(codec);
    CreateCrash(codec, d, i, k);
    FirstAppendCrash(codec, d2, l, if i < n then 0 else i - n, k);
    ApplyAllConcat(d, create, append);
    CrashAtConcat(d, create, append, i, k);
  }

  /** A crash while the log is replaced, and the new log. */
  lemma ReplaceCrash(codec: Codec, d: Disk, l: Checkpoint, i: nat, k: nat)
    requires Lawful(codec) && Fits(codec, l)
    requires WalOk(codec, d.wal) && WalLatest(codec, d.wal) == Some(l)
    ensures var h := AppendTo(BLANK, codec.encode(l));
      var d' := CrashAt(d, ReplacePrims(codec, l), i, k);
      && d'.files == d.files
      && WalOk(codec, d'.wal) && WalContents(codec, d'.wal) in {WalContents(codec, d.wal), [], [l]}
      && ApplyAll(d, ReplacePrims(codec, l)) == d.(wal := Some(h.data))
      && OpenLog(codec, d.(wal := Some(h.data)), h, [] + [codec.encode(l)], Some(l))
  {
    var d1 := d.(wal := None);
    assert Apply(d, RemoveWal) == d1;
    CrashAtCons(d, RemoveWal, OpenPrims(None) + AppendPrims(BLANK, codec.encode(l)), i, k);
    CreateAppendCrash(codec, d1, l, if i == 0 then 0 else i - 1, k);
    if i == 0 {
      NoContents(codec, None);
    }
  }

  /** A crash while the log is compacted, and the compacted log. */
  lemma CompactionCrash(codec: Codec, d: Disk, h: Handle, recs: seq<seq<byte>>, latest: Option<Checkpoint>,
                        i: nat, k: nat)
    returns (recs': seq<seq<byte>>)
    requires Lawful(codec) && OpenLog(codec, d, h, recs, latest)
    ensures var (ps, h') := Compaction(codec, h);
      var d' := CrashAt(d, ps, i, k);
      && d'.files == d.files
      && WalOk(codec, d'.wal) && WalContents(codec, d'.wal) in {Decoded(codec, recs), [], Kept(latest)}
      && ApplyAll(d, ps) == d.(wal := Some(h'.data))
      && OpenLog(codec, d.(wal := Some(h'.data)), h', recs', latest)
      && Decoded(codec, recs') == Kept(latest)
  {
    OpenLogLatest(codec, d, h, recs, latest);
    if h.records < MAX_WAL_RECORDS || latest.None? {
      recs' := recs;
      assert d.(wal := Some(h.data)) == d;
      assert Decoded(codec, recs) == [];
    } else {
      recs' := [] + [codec.encode(latest.value)];
      DecodedOne(codec, codec.encode(latest.value));
      ReplaceCrash(codec, d, latest.value, i, k);
    }
  }

  /** A crash while the log is opened, and the open log: `latest` is what the file showed. */
  lemma OpenCrash(codec: Codec, d: Disk, i: nat, k: nat)
    returns (recs: seq<seq<byte>>)
    requires Lawful(codec) && WalOk(codec, d.wal) && !Dead(d.wal)
    ensures var d' := CrashAt(d, OpenPrims(d.wal), i, k);
      var latest := WalLatest(codec, d.wal);
      && d'.files == d.files
      && WalOk(codec, d'.wal) && WalContents(codec, d'.wal) == WalContents(codec, d.wal)
      && OpenWal(d.wal).Ok?
      && ApplyAll(d, OpenPrims(d.wal)) == d.(wal := Some(OpenWal(d.wal).value.data))
      && OpenLog(codec, d.(wal := Some(OpenWal(d.wal).value.data)), OpenWal(d.wal).value, recs, latest)
      && Decoded(codec, recs) == WalContents(codec, d.wal)
  {
    if d.wal.None? || d.wal.value == [] {
      recs := [];
      NoContents(codec, d.wal);
      FreshIsLive(codec);
      if d.wal.None? {
        CreateCrash(codec, d, i, k);
      } else {
        InitCrash(codec, d, i, k);
      }
    } else {
      var b := d.wal.value;
      var recs0 :| Live(codec, b, recs0);
      LiveContents(codec, b, recs0);
      var h, recs1 := OpenDecoded(codec, b, recs0);
      recs := recs1;
      assert Extend(b, |b|) == b;
      assert h.data == b;
    }
  }
}
